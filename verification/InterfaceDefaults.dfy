/** Default methods of interfaces are inherited by synthesizing `extend` blocks: for each class, and each
`extend` block without type parameters, that implements interfaces, a block with the missing defaults.
 */
module InterfaceDefaults {
  import opened Containers
  import opened InterfaceClosure

  datatype Class = Class(name: string, generics: Option<seq<string>>, implements: seq<Type>, methods: seq<Method>)

  datatype Extend = Extend(target: string, generics: Option<seq<string>>, implements: seq<Type>, methods: seq<Method>, isSynthesized: bool)

  /** The name a member is registered under.  The source writes `get$x` and `set$x` for accessors, which
  no identifier can clash with; the pair says the same. */
  datatype Key = Key(accessor: Accessor, name: string)

  function MemberName(m: Method): Key { Key(m.accessor, m.name) }

  /** The methods called `name`, in order. */
  function Named(ms: seq<Method>, name: Key): seq<Method> { NamedTo(ms, name, |ms|) }

  /** The methods called `name` among the first `n`. */
  function NamedTo(ms: seq<Method>, name: Key, n: nat): seq<Method>
    requires n <= |ms|
  {
    if n == 0 then [] else NamedTo(ms, name, n - 1) + if MemberName(ms[n - 1]) == name then [ms[n - 1]] else []
  }

  predicate Inheritable(m: Method) { m.isDefault && !m.isStatic }

  /** A default as it is inherited, with the type parameters of its interface replaced. */
  function Inherit(d: Decls, e: Entry, m: Method): Method
    requires Known(d, e)
  {
    var bindings := BindingsOf(d, e);
    var m1 := m.(isDefault := false);
    if bindings == map[] then m1
    else
      m1.(returnType := if m.returnType.Some? then Some(d.substitute(m.returnType.value, bindings)) else None,
          parameters := seq(|m.parameters|, i requires 0 <= i < |m.parameters| => d.substitute(m.parameters[i], bindings)))
  }

  // ----- Candidates: every default that is reached, in order -----

  function MethodsFrom(d: Decls, e: Entry, k: nat): seq<Method>
    requires Known(d, e) && k <= |d.interfaces[e.idx].methods|
    decreases |d.interfaces[e.idx].methods| - k
  {
    var ms := d.interfaces[e.idx].methods;
    if k == |ms| then []
    else (if Inheritable(ms[k]) then [Inherit(d, e, ms[k])] else []) + MethodsFrom(d, e, k + 1)
  }

  function EntriesFrom(d: Decls, es: seq<Entry>, j: nat): seq<Method>
    requires Good(d, es) && j <= |es|
    decreases |es| - j
  {
    if j == |es| then [] else MethodsFrom(d, es[j], 0) + EntriesFrom(d, es, j + 1)
  }

  /** The defaults of the closure of the interface that a type names. */
  function DefaultsOf(d: Decls, t: Type): seq<Method> {
    match Resolve(d, t)
    case None => []
    case Some(idx) =>
      ClosureIsReachable(d, Entry(idx, Args(t)));
      EntriesFrom(d, Closure(d, Entry(idx, Args(t))), 0)
  }

  function CandidatesFrom(d: Decls, implements: seq<Type>, i: nat): seq<Method>
    requires i <= |implements|
    decreases |implements| - i
  {
    if i == |implements| then [] else DefaultsOf(d, implements[i]) + CandidatesFrom(d, implements, i + 1)
  }

  function Candidates(d: Decls, implements: seq<Type>): seq<Method> { CandidatesFrom(d, implements, 0) }

  // ----- Selection -----

  /** Appends the candidates whose names are neither taken nor there already. */
  function Pick(got: seq<Method>, cands: seq<Method>, taken: Key -> bool): seq<Method> { PickFrom(got, cands, 0, taken) }

  function PickFrom(got: seq<Method>, cands: seq<Method>, k: nat, taken: Key -> bool): seq<Method>
    requires k <= |cands|
    decreases |cands| - k
  {
    if k == |cands| then got else PickFrom(WithMethod(got, cands[k], taken), cands, k + 1, taken)
  }

  function WithMethod(got: seq<Method>, m: Method, taken: Key -> bool): seq<Method> {
    if taken(MemberName(m)) || Named(got, MemberName(m)) != [] then got else got + [m]
  }

  lemma {:induction false} PickShift(got: seq<Method>, a: seq<Method>, b: seq<Method>, k: nat, taken: Key -> bool)
    requires k <= |b|
    ensures PickFrom(got, a + b, |a| + k, taken) == PickFrom(got, b, k, taken)
    decreases |b| - k
  {
    if k < |b| {
      assert (a + b)[|a| + k] == b[k];
      PickShift(WithMethod(got, b[k], taken), a, b, k + 1, taken);
    }
  }

  lemma {:induction false} PickThrough(got: seq<Method>, a: seq<Method>, b: seq<Method>, k: nat, taken: Key -> bool)
    requires k <= |a|
    ensures PickFrom(got, a + b, k, taken) == PickFrom(PickFrom(got, a, k, taken), b, 0, taken)
    decreases |a| - k
  {
    if k == |a| {
      PickShift(got, a, b, 0, taken);
    } else {
      assert (a + b)[k] == a[k];
      PickThrough(WithMethod(got, a[k], taken), a, b, k + 1, taken);
    }
  }

  lemma {:induction false} PickConcat(got: seq<Method>, a: seq<Method>, b: seq<Method>, taken: Key -> bool)
    ensures Pick(got, a + b, taken) == Pick(Pick(got, a, taken), b, taken)
  {
    PickThrough(got, a, b, 0, taken);
  }

  lemma {:induction false} PickOne(got: seq<Method>, m: Method, taken: Key -> bool)
    ensures Pick(got, [m], taken) == WithMethod(got, m, taken)
  {
    assert PickFrom(WithMethod(got, m, taken), [m], 1, taken) == WithMethod(got, m, taken);
  }

  function First(ms: seq<Method>): seq<Method> { if ms == [] then [] else [ms[0]] }

  lemma {:induction false} NamedPrefix(a: seq<Method>, b: seq<Method>, name: Key, n: nat)
    requires n <= |a|
    ensures NamedTo(a + b, name, n) == NamedTo(a, name, n)
  {
    if n > 0 {
      assert (a + b)[n - 1] == a[n - 1];
      NamedPrefix(a, b, name, n - 1);
    }
  }

  lemma {:induction false} NamedSuffix(a: seq<Method>, b: seq<Method>, name: Key, n: nat)
    requires n <= |b|
    ensures NamedTo(a + b, name, |a| + n) == Named(a, name) + NamedTo(b, name, n)
    decreases n
  {
    if n == 0 {
      NamedPrefix(a, b, name, |a|);
    } else {
      assert (a + b)[|a| + n - 1] == b[n - 1];
      NamedSuffix(a, b, name, n - 1);
      Regroup(Named(a, name), NamedTo(b, name, n - 1), if MemberName(b[n - 1]) == name then [b[n - 1]] else []);
    }
  }

  lemma {:induction false} NamedConcat(a: seq<Method>, b: seq<Method>, name: Key)
    ensures Named(a + b, name) == Named(a, name) + Named(b, name)
  {
    NamedSuffix(a, b, name, |b|);
  }

  lemma {:induction false} NamedOne(m: Method, name: Key)
    ensures Named([m], name) == if MemberName(m) == name then [m] else []
  {
    assert NamedTo([m], name, 0) == [];
  }

  /** What is called `name` among the candidates from number `k` on. */
  function NamedFrom(ms: seq<Method>, name: Key, k: nat): seq<Method>
    requires k <= |ms|
    decreases |ms| - k
  {
    if k == |ms| then [] else (if MemberName(ms[k]) == name then [ms[k]] else []) + NamedFrom(ms, name, k + 1)
  }

  lemma {:induction false} NamedBothWays(ms: seq<Method>, name: Key, k: nat)
    requires k <= |ms|
    ensures NamedTo(ms, name, k) + NamedFrom(ms, name, k) == Named(ms, name)
    decreases |ms| - k
  {
    if k < |ms| {
      NamedBothWays(ms, name, k + 1);
      Regroup(NamedTo(ms, name, k), if MemberName(ms[k]) == name then [ms[k]] else [], NamedFrom(ms, name, k + 1));
    }
  }

  lemma {:induction false} WithMethodNamed(got: seq<Method>, m: Method, taken: Key -> bool, name: Key)
    ensures Named(WithMethod(got, m, taken), name) ==
            if MemberName(m) == name && !taken(name) && Named(got, name) == [] then [m] else Named(got, name)
  {
    NamedConcat(got, [m], name);
    NamedOne(m, name);
  }

  lemma {:induction false} PickFromMeans(got: seq<Method>, cands: seq<Method>, k: nat, taken: Key -> bool, name: Key)
    requires k <= |cands|
    ensures Named(PickFrom(got, cands, k, taken), name) ==
            if taken(name) || Named(got, name) != [] then Named(got, name) else First(NamedFrom(cands, name, k))
    decreases |cands| - k
  {
    if k < |cands| {
      WithMethodNamed(got, cands[k], taken, name);
      PickFromMeans(WithMethod(got, cands[k], taken), cands, k + 1, taken, name);
    }
  }

  /** What selection leaves under one name: what was there, or else the first candidate if the name is free. */
  lemma {:induction false} PickMeans(got: seq<Method>, cands: seq<Method>, taken: Key -> bool, name: Key)
    ensures Named(Pick(got, cands, taken), name) ==
            if taken(name) || Named(got, name) != [] then Named(got, name) else First(Named(cands, name))
  {
    PickFromMeans(got, cands, 0, taken, name);
    NamedBothWays(cands, name, 0);
  }

  // ----- Synthesis -----

  /** Something that implements interfaces: the defaults it reaches and the methods it declares itself. */
  datatype Job = Job(target: string, generics: Option<seq<string>>, candidates: seq<Method>, own: seq<Method>)

  /** The job of a class, unless it implements nothing. */
  function ClassJob(d: Decls): Class -> seq<Job> {
    (c: Class) => if c.implements == [] then [] else [Job(c.name, c.generics, Candidates(d, c.implements), c.methods)]
  }

  /** The job of a block; blocks with type parameters are left to be instantiated later. */
  function ExtendJob(d: Decls): Extend -> seq<Job> {
    (x: Extend) =>
      if x.implements == [] || x.generics.Some? then [] else [Job(x.target, x.generics, Candidates(d, x.implements), x.methods)]
  }

  /** The jobs of the declarations from number `i` on. */
  function JobsFrom<X>(job: X -> seq<Job>, xs: seq<X>, i: nat): seq<Job>
    requires i <= |xs|
    decreases |xs| - i
  {
    if i == |xs| then [] else job(xs[i]) + JobsFrom(job, xs, i + 1)
  }

  function Jobs(d: Decls, classes: seq<Class>, blocks: seq<Extend>): seq<Job> {
    JobsFrom(ClassJob(d), classes, 0) + JobsFrom(ExtendJob(d), blocks, 0)
  }

  /** The methods called `name` in the blocks for `target`, in order. */
  function Extended(es: seq<Extend>, target: string, name: Key): seq<Method> { ExtendedTo(es, target, name, |es|) }

  function ExtendedTo(es: seq<Extend>, target: string, name: Key, n: nat): seq<Method>
    requires n <= |es|
  {
    if n == 0 then []
    else ExtendedTo(es, target, name, n - 1) + if es[n - 1].target == target then Named(es[n - 1].methods, name) else []
  }

  /** The names that are defined for `target`, whose methods `own` are known besides those in blocks. */
  function Defined(target: string, own: seq<Method>, blocks: seq<Extend>, synthesized: seq<Extend>): Key -> bool {
    name => Named(own, name) != [] || Extended(blocks, target, name) != [] || Extended(synthesized, target, name) != []
  }

  function Inherited(j: Job, blocks: seq<Extend>, synthesized: seq<Extend>): seq<Method> {
    Pick([], j.candidates, Defined(j.target, j.own, blocks, synthesized))
  }

  function PushDefaults(target: string, generics: Option<seq<string>>, inherited: seq<Method>, out: seq<Extend>): seq<Extend> {
    if inherited == [] then out else out + [Extend(target, generics, [], inherited, true)]
  }

  function Synthesize(blocks: seq<Extend>, jobs: seq<Job>, synthesized: seq<Extend>): seq<Extend> {
    SynthesizeFrom(blocks, jobs, 0, synthesized)
  }

  function SynthesizeFrom(blocks: seq<Extend>, jobs: seq<Job>, k: nat, synthesized: seq<Extend>): seq<Extend>
    requires k <= |jobs|
    decreases |jobs| - k
  {
    if k == |jobs| then synthesized else SynthesizeFrom(blocks, jobs, k + 1, Serve(blocks, jobs[k], synthesized))
  }

  /** What one implementer adds. */
  function Serve(blocks: seq<Extend>, j: Job, synthesized: seq<Extend>): seq<Extend> {
    PushDefaults(j.target, j.generics, Inherited(j, blocks, synthesized), synthesized)
  }

  function Generate(d: Decls, classes: seq<Class>, blocks: seq<Extend>): seq<Extend> {
    blocks + Synthesize(blocks, Jobs(d, classes, blocks), [])
  }

  // ----- What is generated -----

  /** The candidates called `name` of the jobs for `target` that do not declare `name` themselves. */
  function Wanted(jobs: seq<Job>, target: string, name: Key): seq<Method> { WantedFrom(jobs, 0, target, name) }

  function WantedFrom(jobs: seq<Job>, k: nat, target: string, name: Key): seq<Method>
    requires k <= |jobs|
    decreases |jobs| - k
  {
    if k == |jobs| then [] else WantedBy(jobs[k], target, name) + WantedFrom(jobs, k + 1, target, name)
  }

  function WantedBy(j: Job, target: string, name: Key): seq<Method> {
    if j.target == target && Named(j.own, name) == [] then Named(j.candidates, name) else []
  }

  lemma {:induction false} ExtendedPrefix(a: seq<Extend>, b: seq<Extend>, target: string, name: Key, n: nat)
    requires n <= |a|
    ensures ExtendedTo(a + b, target, name, n) == ExtendedTo(a, target, name, n)
  {
    if n > 0 {
      assert (a + b)[n - 1] == a[n - 1];
      ExtendedPrefix(a, b, target, name, n - 1);
    }
  }

  lemma {:induction false} ExtendedSuffix(a: seq<Extend>, b: seq<Extend>, target: string, name: Key, n: nat)
    requires n <= |b|
    ensures ExtendedTo(a + b, target, name, |a| + n) == Extended(a, target, name) + ExtendedTo(b, target, name, n)
    decreases n
  {
    if n == 0 {
      ExtendedPrefix(a, b, target, name, |a|);
    } else {
      assert (a + b)[|a| + n - 1] == b[n - 1];
      ExtendedSuffix(a, b, target, name, n - 1);
      Regroup(Extended(a, target, name), ExtendedTo(b, target, name, n - 1),
              if b[n - 1].target == target then Named(b[n - 1].methods, name) else []);
    }
  }

  lemma {:induction false} ExtendedConcat(a: seq<Extend>, b: seq<Extend>, target: string, name: Key)
    ensures Extended(a + b, target, name) == Extended(a, target, name) + Extended(b, target, name)
  {
    ExtendedSuffix(a, b, target, name, |b|);
  }

  lemma {:induction false} ExtendedOne(x: Extend, target: string, name: Key)
    ensures Extended([x], target, name) == if x.target == target then Named(x.methods, name) else []
  {
    assert ExtendedTo([x], target, name, 0) == [];
  }

  /** What one implementer adds under one name. */
  lemma {:induction false} ServeMeans(j: Job, blocks: seq<Extend>, synthesized: seq<Extend>, target: string, name: Key)
    ensures Extended(Serve(blocks, j, synthesized), target, name) ==
            if Extended(blocks, target, name) != [] || Extended(synthesized, target, name) != [] then Extended(synthesized, target, name)
            else First(WantedBy(j, target, name))
  {
    var inherited := Inherited(j, blocks, synthesized);
    PickMeans([], j.candidates, Defined(j.target, j.own, blocks, synthesized), name);
    var x := Extend(j.target, j.generics, [], inherited, true);
    ExtendedConcat(synthesized, [x], target, name);
    ExtendedOne(x, target, name);
  }

  lemma {:induction false} FirstOfConcat(a: seq<Method>, b: seq<Method>)
    ensures First(a + b) == if a != [] then First(a) else First(b)
  {
  }

  lemma {:induction false} SynthesizeFromMeans(blocks: seq<Extend>, jobs: seq<Job>, k: nat, synthesized: seq<Extend>,
                                               target: string, name: Key)
    requires k <= |jobs|
    ensures Extended(SynthesizeFrom(blocks, jobs, k, synthesized), target, name) ==
            if Extended(blocks, target, name) != [] || Extended(synthesized, target, name) != [] then Extended(synthesized, target, name)
            else First(WantedFrom(jobs, k, target, name))
    decreases |jobs| - k
  {
    if k < |jobs| {
      ServeMeans(jobs[k], blocks, synthesized, target, name);
      SynthesizeFromMeans(blocks, jobs, k + 1, Serve(blocks, jobs[k], synthesized), target, name);
      FirstOfConcat(WantedBy(jobs[k], target, name), WantedFrom(jobs, k + 1, target, name));
    }
  }

  lemma {:induction false} SynthesizeMeans(blocks: seq<Extend>, jobs: seq<Job>, target: string, name: Key)
    ensures Extended(Synthesize(blocks, jobs, []), target, name) ==
            if Extended(blocks, target, name) != [] then [] else First(Wanted(jobs, target, name))
  {
    SynthesizeFromMeans(blocks, jobs, 0, [], target, name);
  }

  /** For every target and name: if a block defined the method before, those blocks are all there is; if
  not, there is exactly the first default, in depth-first preorder, of the first implementer that wants it. */
  lemma {:induction false} GenerateMeans(d: Decls, classes: seq<Class>, blocks: seq<Extend>, target: string, name: Key)
    ensures Extended(Generate(d, classes, blocks), target, name) ==
            if Extended(blocks, target, name) != [] then Extended(blocks, target, name)
            else First(Wanted(Jobs(d, classes, blocks), target, name))
  {
    SynthesizeMeans(blocks, Jobs(d, classes, blocks), target, name);
    ExtendedConcat(blocks, Synthesize(blocks, Jobs(d, classes, blocks), []), target, name);
  }
}
