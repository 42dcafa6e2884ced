/** Results about the synthesized blocks: completeness, duplicates, and a second run. */
module InterfaceSynthesis {
  import opened Containers
  import opened InterfaceClosure
  import opened InterfaceDefaults

  // ----- Completeness -----

  lemma {:induction false} InheritKeepsName(d: Decls, e: Entry, m: Method)
    requires Known(d, e)
    ensures MemberName(Inherit(d, e, m)) == MemberName(m)
  {
  }

  lemma {:induction false} MethodIsListed(d: Decls, e: Entry, k: nat, i: nat)
    requires Known(d, e) && k <= i < |d.interfaces[e.idx].methods| && Inheritable(d.interfaces[e.idx].methods[i])
    ensures Named(MethodsFrom(d, e, k), MemberName(d.interfaces[e.idx].methods[i])) != []
    decreases i - k
  {
    var ms := d.interfaces[e.idx].methods;
    var name := MemberName(ms[i]);
    if k == i {
      InheritKeepsName(d, e, ms[i]);
      NamedOne(Inherit(d, e, ms[i]), name);
    } else {
      MethodIsListed(d, e, k + 1, i);
    }
    EitherIsListed(if Inheritable(ms[k]) then [Inherit(d, e, ms[k])] else [], MethodsFrom(d, e, k + 1), name);
  }

  lemma {:induction false} EntryIsListed(d: Decls, es: seq<Entry>, j: nat, i: nat, name: Key)
    requires Good(d, es) && j <= i < |es| && Named(MethodsFrom(d, es[i], 0), name) != []
    ensures Named(EntriesFrom(d, es, j), name) != []
    decreases i - j
  {
    if j < i {
      EntryIsListed(d, es, j + 1, i, name);
    }
    EitherIsListed(MethodsFrom(d, es[j], 0), EntriesFrom(d, es, j + 1), name);
  }

  lemma {:induction false} TypeIsListed(d: Decls, implements: seq<Type>, j: nat, i: nat, name: Key)
    requires j <= i < |implements| && Named(DefaultsOf(d, implements[i]), name) != []
    ensures Named(CandidatesFrom(d, implements, j), name) != []
    decreases i - j
  {
    if j < i {
      TypeIsListed(d, implements, j + 1, i, name);
    }
    EitherIsListed(DefaultsOf(d, implements[j]), CandidatesFrom(d, implements, j + 1), name);
  }

  lemma {:induction false} EitherIsListed(a: seq<Method>, b: seq<Method>, name: Key)
    requires Named(a, name) != [] || Named(b, name) != []
    ensures Named(a + b, name) != []
  {
    NamedConcat(a, b, name);
  }

  /** `m` is a default that `implements` reaches: a non-static default of an interface that can be
  reached from one of the interfaces named. */
  ghost predicate ReachesDefault(d: Decls, implements: seq<Type>, m: Method) {
    exists i, idx, k ::
      && 0 <= i < |implements| && Resolve(d, implements[i]).Some?
      && 0 <= idx < |d.interfaces| && Reachable(d, Resolve(d, implements[i]).value, idx)
      && 0 <= k < |d.interfaces[idx].methods| && d.interfaces[idx].methods[k] == m && Inheritable(m)
  }

  lemma {:induction false} ReachedIsCandidate(d: Decls, implements: seq<Type>, m: Method)
    requires ReachesDefault(d, implements, m)
    ensures Named(Candidates(d, implements), MemberName(m)) != []
  {
    var i, idx, k :|
      && 0 <= i < |implements| && Resolve(d, implements[i]).Some?
      && 0 <= idx < |d.interfaces| && Reachable(d, Resolve(d, implements[i]).value, idx)
      && 0 <= k < |d.interfaces[idx].methods| && d.interfaces[idx].methods[k] == m && Inheritable(m);
    var e := Entry(Resolve(d, implements[i]).value, Args(implements[i]));
    ClosureIsReachable(d, e);
    var es := Closure(d, e);
    assert Listed(es, idx);
    var j :| 0 <= j < |es| && es[j].idx == idx;
    MethodIsListed(d, es[j], 0, k);
    EntryIsListed(d, es, 0, j, MemberName(m));
    TypeIsListed(d, implements, 0, i, MemberName(m));
  }

  lemma {:induction false} WantedByIff(j: Job, target: string, name: Key)
    ensures WantedBy(j, target, name) != [] <==> Wants(j, target, name)
  {
  }

  lemma {:induction false} WantedFromIff(jobs: seq<Job>, k: nat, target: string, name: Key)
    requires k <= |jobs|
    ensures WantedFrom(jobs, k, target, name) != [] <==> exists i :: k <= i < |jobs| && Wants(jobs[i], target, name)
    decreases |jobs| - k
  {
    if k < |jobs| {
      WantedFromIff(jobs, k + 1, target, name);
      WantedByIff(jobs[k], target, name);
    }
  }

  lemma {:induction false} WantedIff(jobs: seq<Job>, target: string, name: Key)
    ensures Wanted(jobs, target, name) != [] <==> exists j :: j in jobs && Wants(j, target, name)
  {
    WantedFromIff(jobs, 0, target, name);
  }

  /** An implementer of `target` that reaches a default called `name` and does not declare it itself. */
  predicate Wants(j: Job, target: string, name: Key) {
    j.target == target && Named(j.own, name) == [] && Named(j.candidates, name) != []
  }

  lemma {:induction false} InEither(j: Job, a: seq<Job>, b: seq<Job>)
    requires j in a || j in b
    ensures j in a + b
  {
  }

  lemma {:induction false} JobIsListed<X>(job: X -> seq<Job>, xs: seq<X>, i: nat, k: nat, j: Job)
    requires i <= k < |xs| && j in job(xs[k])
    ensures j in JobsFrom(job, xs, i)
    decreases k - i
  {
    if i < k {
      JobIsListed(job, xs, i + 1, k, j);
    }
    InEither(j, job(xs[i]), JobsFrom(job, xs, i + 1));
  }

  lemma {:induction false} ServedIsDefined(d: Decls, classes: seq<Class>, blocks: seq<Extend>, j: Job, name: Key)
    requires j in Jobs(d, classes, blocks) && Named(j.candidates, name) != []
    ensures Named(j.own, name) != [] || Extended(Generate(d, classes, blocks), j.target, name) != []
  {
    GenerateMeans(d, classes, blocks, j.target, name);
    if Named(j.own, name) == [] {
      assert Wants(j, j.target, name);
      WantedIff(Jobs(d, classes, blocks), j.target, name);
    }
  }

  /** After synthesis every default that a class reaches is declared by the class or in a block for it. */
  lemma {:induction false} ClassDefaultsAreDefined(d: Decls, classes: seq<Class>, blocks: seq<Extend>, c: Class, m: Method)
    requires c in classes && ReachesDefault(d, c.implements, m)
    ensures Named(c.methods, MemberName(m)) != [] || Extended(Generate(d, classes, blocks), c.name, MemberName(m)) != []
  {
    var k :| 0 <= k < |classes| && classes[k] == c;
    var j := Job(c.name, c.generics, Candidates(d, c.implements), c.methods);
    JobIsListed(ClassJob(d), classes, 0, k, j);
    InEither(j, JobsFrom(ClassJob(d), classes, 0), JobsFrom(ExtendJob(d), blocks, 0));
    ReachedIsCandidate(d, c.implements, m);
    ServedIsDefined(d, classes, blocks, j, MemberName(m));
  }

  /** After synthesis every default that a block without type parameters reaches is in a block for its target. */
  lemma {:induction false} BlockDefaultsAreDefined(d: Decls, classes: seq<Class>, blocks: seq<Extend>, x: Extend, m: Method)
    requires x in blocks && x.generics.None? && ReachesDefault(d, x.implements, m)
    ensures Extended(Generate(d, classes, blocks), x.target, MemberName(m)) != []
  {
    var k :| 0 <= k < |blocks| && blocks[k] == x;
    var j := Job(x.target, x.generics, Candidates(d, x.implements), x.methods);
    JobIsListed(ExtendJob(d), blocks, 0, k, j);
    InEither(j, JobsFrom(ClassJob(d), classes, 0), JobsFrom(ExtendJob(d), blocks, 0));
    ReachedIsCandidate(d, x.implements, m);
    ServedIsDefined(d, classes, blocks, j, MemberName(m));
    GenerateMeans(d, classes, blocks, x.target, MemberName(m));
    if Named(x.methods, MemberName(m)) != [] {
      OwnIsExtended(blocks, k, MemberName(m), |blocks|);
    }
  }

  lemma {:induction false} OwnIsExtended(blocks: seq<Extend>, k: nat, name: Key, n: nat)
    requires k < n <= |blocks| && Named(blocks[k].methods, name) != []
    ensures ExtendedTo(blocks, blocks[k].target, name, n) != []
    decreases n
  {
    if k < n - 1 {
      OwnIsExtended(blocks, k, name, n - 1);
    }
  }

  // ----- No duplicates -----

  /** Blocks never come to define a method twice: synthesis adds at most one, and only where there was none. */
  lemma {:induction false} NoDuplicateAmongBlocks(d: Decls, classes: seq<Class>, blocks: seq<Extend>, target: string, name: Key)
    ensures var before, after := Extended(blocks, target, name), Extended(Generate(d, classes, blocks), target, name);
            if before != [] then after == before else |after| <= 1
  {
    GenerateMeans(d, classes, blocks, target, name);
  }

  /** A method that a class declares is synthesized for it as well. */
  ghost predicate Clash(d: Decls, classes: seq<Class>, blocks: seq<Extend>, c: Class, name: Key) {
    && c in classes && Named(c.methods, name) != []
    && Extended(Synthesize(blocks, Jobs(d, classes, blocks), []), c.name, name) != []
  }

  /** That happens exactly if no block declares the method, and an implementer with the name of the
  class, which does not declare it either, reaches a default of that name. */
  lemma {:induction false} ClashIff(d: Decls, classes: seq<Class>, blocks: seq<Extend>, c: Class, name: Key)
    ensures Clash(d, classes, blocks, c, name) <==>
            && c in classes && Named(c.methods, name) != [] && Extended(blocks, c.name, name) == []
            && exists j :: j in Jobs(d, classes, blocks) && Wants(j, c.name, name)
  {
    SynthesizeMeans(blocks, Jobs(d, classes, blocks), c.name, name);
    WantedIff(Jobs(d, classes, blocks), c.name, name);
  }

  /** `class Foo { m }` with `extend Foo : I`, where `I` has a default `m`, defines `m` twice. */
  lemma {:induction false} ClashExample(substitute: (Type, Bindings) -> Type, body: nat)
    ensures var m := Method("m", Plain, true, false, None, [], body);
            var d := Decls([Interface("I", None, [], [m])], substitute);
            var foo := Class("Foo", None, [], [m.(isDefault := false)]);
            Clash(d, [foo], [Extend("Foo", None, [Struct("I", [])], [], false)], foo, Key(Plain, "m"))
  {
    var m := Method("m", Plain, true, false, None, [], body);
    var d := Decls([Interface("I", None, [], [m])], substitute);
    var foo := Class("Foo", None, [], [m.(isDefault := false)]);
    var x := Extend("Foo", None, [Struct("I", [])], [], false);
    var j := Job("Foo", None, Candidates(d, x.implements), []);
    var name := MemberName(m);
    NamedOne(m.(isDefault := false), name);
    assert Reaches(d, 0, 0, 0);
    assert d.interfaces[0].methods[0] == m && Resolve(d, x.implements[0]) == Some(0);
    ReachedIsCandidate(d, x.implements, m);
    JobIsListed(ExtendJob(d), [x], 0, 0, j);
    WantedClashes(d, foo, x, j, name);
  }

  lemma {:induction false} WantedClashes(d: Decls, c: Class, x: Extend, j: Job, name: Key)
    requires Named(c.methods, name) != [] && x.target == c.name && x.methods == [] && j.target == c.name && j.own == []
    requires j in JobsFrom(ExtendJob(d), [x], 0) && Named(j.candidates, name) != []
    ensures Clash(d, [c], [x], c, name)
  {
    ExtendedOne(x, c.name, name);
    InEither(j, JobsFrom(ClassJob(d), [c], 0), JobsFrom(ExtendJob(d), [x], 0));
    assert Wants(j, c.name, name);
    ClashIff(d, [c], [x], c, name);
  }

  // ----- A second run -----

  /** Nothing that the jobs want is missing. */
  ghost predicate Satisfied(jobs: seq<Job>, blocks: seq<Extend>) {
    forall target, name :: Extended(blocks, target, name) == [] ==> Wanted(jobs, target, name) == []
  }

  lemma {:induction false} PickNothing(got: seq<Method>, cands: seq<Method>, k: nat, taken: Key -> bool)
    requires k <= |cands| && forall i :: 0 <= i < |cands| ==> taken(MemberName(cands[i]))
    ensures PickFrom(got, cands, k, taken) == got
    decreases |cands| - k
  {
    if k < |cands| {
      PickNothing(got, cands, k + 1, taken);
    }
  }

  lemma {:induction false} NamedAt(ms: seq<Method>, i: nat, n: nat)
    requires i < n <= |ms|
    ensures NamedTo(ms, MemberName(ms[i]), n) != []
    decreases n
  {
    if i < n - 1 {
      NamedAt(ms, i, n - 1);
    }
  }

  lemma {:induction false} SatisfiedJob(j: Job, blocks: seq<Extend>)
    requires forall name :: Extended(blocks, j.target, name) == [] ==> !Wants(j, j.target, name)
    ensures Inherited(j, blocks, []) == []
  {
    var cands, taken := j.candidates, Defined(j.target, j.own, blocks, []);
    forall i | 0 <= i < |cands| ensures taken(MemberName(cands[i])) {
      NamedAt(cands, i, |cands|);
      assert Extended(blocks, j.target, MemberName(cands[i])) == [] ==> !Wants(j, j.target, MemberName(cands[i]));
    }
    PickNothing([], cands, 0, taken);
  }

  lemma {:induction false} SatisfiedAddsNothing(blocks: seq<Extend>, jobs: seq<Job>, k: nat)
    requires Satisfied(jobs, blocks) && k <= |jobs|
    ensures SynthesizeFrom(blocks, jobs, k, []) == []
    decreases |jobs| - k
  {
    if k < |jobs| {
      var j := jobs[k];
      forall name | Extended(blocks, j.target, name) == [] ensures !Wants(j, j.target, name) {
        assert Wanted(jobs, j.target, name) == [];
        WantedIff(jobs, j.target, name);
        assert j in jobs;
      }
      SatisfiedJob(j, blocks);
      SatisfiedAddsNothing(blocks, jobs, k + 1);
    }
  }

  ghost predicate ImplementNothing(es: seq<Extend>) { forall i :: 0 <= i < |es| ==> es[i].implements == [] }

  lemma {:induction false} ServedImplementNothing(target: string, generics: Option<seq<string>>, inherited: seq<Method>, out: seq<Extend>)
    requires ImplementNothing(out)
    ensures ImplementNothing(PushDefaults(target, generics, inherited, out))
  {
  }

  lemma {:induction false} SynthesizedImplementNothing(blocks: seq<Extend>, jobs: seq<Job>, k: nat, synthesized: seq<Extend>)
    requires ImplementNothing(synthesized) && k <= |jobs|
    ensures ImplementNothing(SynthesizeFrom(blocks, jobs, k, synthesized))
    decreases |jobs| - k
  {
    if k < |jobs| {
      ServedImplementNothing(jobs[k].target, jobs[k].generics, Inherited(jobs[k], blocks, synthesized), synthesized);
      SynthesizedImplementNothing(blocks, jobs, k + 1, Serve(blocks, jobs[k], synthesized));
    }
  }

  lemma {:induction false} NoNewJobs<X>(job: X -> seq<Job>, xs: seq<X>, more: seq<X>, i: nat)
    requires i <= |xs| + |more| && forall k :: 0 <= k < |more| ==> job(more[k]) == []
    ensures JobsFrom(job, xs + more, i) == if i <= |xs| then JobsFrom(job, xs, i) else []
    decreases |xs| + |more| - i
  {
    if i < |xs| + |more| {
      NoNewJobs(job, xs, more, i + 1);
      assert (xs + more)[i] == if i < |xs| then xs[i] else more[i - |xs|];
    }
  }

  /** A second run adds nothing. */
  lemma {:induction false} GenerateIsIdempotent(d: Decls, classes: seq<Class>, blocks: seq<Extend>)
    ensures var once := Generate(d, classes, blocks);
            Generate(d, classes, once) == once
  {
    var jobs, once := Jobs(d, classes, blocks), Generate(d, classes, blocks);
    var added := Synthesize(blocks, jobs, []);
    SynthesizedImplementNothing(blocks, jobs, 0, []);
    NoNewJobs(ExtendJob(d), blocks, added, 0);
    forall target, name | Extended(once, target, name) == [] ensures Wanted(jobs, target, name) == [] {
      GenerateMeans(d, classes, blocks, target, name);
    }
    SatisfiedAddsNothing(once, jobs, 0);
  }
}
