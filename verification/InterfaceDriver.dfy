/** The procedures that compute the closure and the synthesized blocks, proved against the definitions. */
module InterfaceDriver {
  import opened Containers
  import opened InterfaceClosure
  import opened InterfaceDefaults

  /** The interface is the one its name stands for: the first of that name. */
  predicate Canonical(d: Decls, idx: nat) {
    idx < |d.interfaces| && Position(d, d.interfaces[idx].name, 0) == Some(idx)
  }

  ghost predicate AllCanonical(d: Decls, out: seq<Entry>) { forall i :: 0 <= i < |out| ==> Canonical(d, out[i].idx) }

  /** `visited` holds the names of what is in `out`. */
  ghost predicate NamesOf(d: Decls, out: seq<Entry>, visited: seq<string>) {
    && |visited| == |out| && AllCanonical(d, out)
    && forall i :: 0 <= i < |out| ==> visited[i] == d.interfaces[out[i].idx].name
  }

  lemma {:induction false} NamedIsListed(d: Decls, out: seq<Entry>, visited: seq<string>, idx: nat)
    requires NamesOf(d, out, visited) && Canonical(d, idx)
    ensures d.interfaces[idx].name in visited <==> Listed(out, idx)
  {
    if d.interfaces[idx].name in visited {
      var i :| 0 <= i < |visited| && visited[i] == d.interfaces[idx].name;
      assert Canonical(d, out[i].idx);
      assert out[i].idx == idx;
    }
  }

  lemma {:induction false} FoundIsCanonical(d: Decls, name: string)
    requires Position(d, name, 0).Some?
    ensures Canonical(d, Position(d, name, 0).value)
  {
  }

  /** The interfaces not listed yet. */
  ghost function Left(d: Decls, out: seq<Entry>): set<nat> { set i | i in Universe(d) && !Listed(out, i) }

  lemma {:induction false} LeftShrinks(d: Decls, out: seq<Entry>, e: Entry, r: seq<Entry>)
    requires Known(d, e) && !Listed(out, e.idx) && out + [e] <= r
    ensures |Left(d, r)| < |Left(d, out)|
  {
    assert (out + [e])[|out|] == e == r[|out|];
    assert Listed(r, e.idx);
    forall i | i in Left(d, r) ensures i in Left(d, out) - {e.idx} {
      if Listed(out, i) {
        ListedPrefix(out, r, i);
      }
    }
    Smaller(Left(d, r), Left(d, out) - {e.idx});
  }

  lemma {:induction false} LeftNotMore(d: Decls, out: seq<Entry>, r: seq<Entry>)
    requires out <= r
    ensures |Left(d, r)| <= |Left(d, out)|
  {
    forall i | i in Left(d, r) ensures i in Left(d, out) {
      if Listed(out, i) {
        ListedPrefix(out, r, i);
      }
    }
    Smaller(Left(d, r), Left(d, out));
  }

  lemma {:induction false} Smaller(a: set<nat>, b: set<nat>)
    requires a <= b
    ensures |a| <= |b|
    decreases a
  {
    if a != {} {
      var x :| x in a;
      Smaller(a - {x}, b - {x});
    }
  }

  /** What a visit needs: all that is listed off the path has been left. */
  ghost predicate Ready(d: Decls, out: seq<Entry>, visited: seq<string>, path: set<nat>) {
    NamesOf(d, out, visited) && Good(d, out) && Open(out, path) && Closed(d, out, path)
  }

  /** Depth-first search with a list of visited names: appends the first occurrences in the unfolding. */
  method CollectIfaceClosure(d: Decls, idx: nat, args: seq<Type>, visited: seq<string>, out: seq<Entry>, ghost path: set<nat>)
    returns (visited': seq<string>, out': seq<Entry>)
    requires Canonical(d, idx) && Ready(d, out, visited, path)
    ensures out' == AppendNew(out, Unfold(d, Entry(idx, args), path))
    ensures NamesOf(d, out', visited')
    decreases |Left(d, out)|, 0
  {
    ghost var e := Entry(idx, args);
    NamedIsListed(d, out, visited, idx);
    if d.interfaces[idx].name in visited {
      NothingNew(d, e, path, out);
      AppendOld(out, Unfold(d, e, path));
      return visited, out;
    }
    LeftShrinks(d, out, e, out + [e]);
    Entered(d, e, path, out);
    AppendFirst(out, e, UnfoldParents(d, e, 0, path + {idx}));
    visited', out' :=
      CollectParents(d, Entry(idx, args), visited + [d.interfaces[idx].name], out + [Entry(idx, args)], path + {idx});
  }

  /** The loop over the parents of an interface. */
  method CollectParents(d: Decls, e: Entry, visited: seq<string>, out: seq<Entry>, ghost path: set<nat>)
    returns (visited': seq<string>, out': seq<Entry>)
    requires Known(d, e) && Ready(d, out, visited, path)
    ensures out' == AppendNew(out, UnfoldParents(d, e, 0, path))
    ensures NamesOf(d, out', visited')
    decreases |Left(d, out)|, 2
  {
    visited', out' := visited, out;
    for k := 0 to |Parents(d, e)|
      invariant Ready(d, out', visited', path) && out <= out'
      invariant AppendNew(out', UnfoldParents(d, e, k, path)) == AppendNew(out, UnfoldParents(d, e, 0, path))
    {
      LeftNotMore(d, out, out');
      visited', out' := CollectParent(d, e, k, visited', out', path);
    }
  }

  /** One turn of that loop. */
  method CollectParent(d: Decls, e: Entry, k: nat, visited: seq<string>, out: seq<Entry>, ghost path: set<nat>)
    returns (visited': seq<string>, out': seq<Entry>)
    requires Known(d, e) && k < |Parents(d, e)| && Ready(d, out, visited, path)
    ensures Ready(d, out', visited', path) && out <= out'
    ensures AppendNew(out', UnfoldParents(d, e, k + 1, path)) == AppendNew(out, UnfoldParents(d, e, k, path))
    decreases |Left(d, out)|, 1
  {
    var t := d.interfaces[e.idx].parents[k];
    if !t.Struct? {
      NoParent(d, e, k, path, out);
      return visited, out;
    }
    var found := Position(d, t.name, 0);
    if found.None? {
      NoParent(d, e, k, path, out);
      return visited, out;
    }
    FoundIsCanonical(d, t.name);
    var bindings := BindingsOf(d, e);
    var pargs := seq(|t.args|, i requires 0 <= i < |t.args| => d.substitute(t.args[i], bindings));
    visited', out' := CollectIfaceClosure(d, found.value, pargs, visited, out, path);
    ParentIs(d, e, k, Entry(found.value, pargs));
    Visited(d, e, k, path, out, out', Entry(found.value, pargs));
  }

  lemma {:induction false} ParentIs(d: Decls, e: Entry, k: nat, p: Entry)
    requires Known(d, e) && k < |Parents(d, e)| && Parents(d, e)[k].Struct?
    requires var t := Parents(d, e)[k];
             && Position(d, t.name, 0) == Some(p.idx) && |p.args| == |t.args|
             && forall i :: 0 <= i < |t.args| ==> p.args[i] == d.substitute(t.args[i], BindingsOf(d, e))
    ensures Parent(d, e, k) == Some(p)
  {
    assert Parent(d, e, k).value.args == p.args;
  }

  lemma {:induction false} NoParent(d: Decls, e: Entry, k: nat, path: set<nat>, out: seq<Entry>)
    requires Known(d, e) && k < |Parents(d, e)| && Parent(d, e, k).None?
    ensures UnfoldParents(d, e, k, path) == UnfoldParents(d, e, k + 1, path)
  {
    assert [] + UnfoldParents(d, e, k + 1, path) == UnfoldParents(d, e, k + 1, path);
  }

  /** After a visit of parent number `k`. */
  lemma {:induction false} Visited(d: Decls, e: Entry, k: nat, path: set<nat>, out: seq<Entry>, r: seq<Entry>, p: Entry)
    requires Known(d, e) && k < |Parents(d, e)| && Parent(d, e, k) == Some(p)
    requires Good(d, out) && Open(out, path) && Closed(d, out, path) && r == AppendNew(out, Unfold(d, p, path))
    ensures Good(d, r) && Open(r, path) && Closed(d, r, path) && out <= r
    ensures AppendNew(out, UnfoldParents(d, e, k, path)) == AppendNew(r, UnfoldParents(d, e, k + 1, path))
  {
    UnfoldCloses(d, p, path, out);
    OpenStays(out, r, path);
    AppendConcat(out, Unfold(d, p, path), UnfoldParents(d, e, k + 1, path));
  }

  // ----- Collecting the defaults -----

  /** `seen` holds the names of what has been inherited so far. */
  ghost predicate SeenOf(inherited: seq<Method>, seen: seq<Key>) {
    forall name :: name in seen <==> Named(inherited, name) != []
  }

  lemma {:induction false} SeenMore(inherited: seq<Method>, seen: seq<Key>, m: Method)
    requires SeenOf(inherited, seen)
    ensures SeenOf(inherited + [m], seen + [MemberName(m)])
  {
    forall name ensures name in seen + [MemberName(m)] <==> Named(inherited + [m], name) != [] {
      NamedConcat(inherited, [m], name);
      NamedOne(m, name);
    }
  }

  /** The defaults of one interface of the closure. */
  method CollectMethods(d: Decls, e: Entry, taken: Key -> bool, inherited: seq<Method>, seen: seq<Key>)
    returns (inherited': seq<Method>, seen': seq<Key>)
    requires Known(d, e) && SeenOf(inherited, seen)
    ensures inherited' == Pick(inherited, MethodsFrom(d, e, 0), taken) && SeenOf(inherited', seen')
  {
    inherited', seen' := inherited, seen;
    var methods := d.interfaces[e.idx].methods;
    for k := 0 to |methods|
      invariant SeenOf(inherited', seen')
      invariant Pick(inherited', MethodsFrom(d, e, k), taken) == Pick(inherited, MethodsFrom(d, e, 0), taken)
    {
      var m := methods[k];
      ghost var rest := MethodsFrom(d, e, k + 1);
      if !m.isDefault || m.isStatic {
        assert [] + rest == rest;
        continue;
      }
      var inheritedMethod := Inherit(d, e, m);
      PickConcat(inherited', [inheritedMethod], rest, taken);
      PickOne(inherited', inheritedMethod, taken);
      var key := MemberName(m);
      assert key == MemberName(inheritedMethod);
      if taken(key) || key in seen' {
        continue;
      }
      SeenMore(inherited', seen', inheritedMethod);
      inherited', seen' := inherited' + [inheritedMethod], seen' + [key];
    }
  }

  method CollectEntries(d: Decls, es: seq<Entry>, taken: Key -> bool, inherited: seq<Method>, seen: seq<Key>)
    returns (inherited': seq<Method>, seen': seq<Key>)
    requires Good(d, es) && SeenOf(inherited, seen)
    ensures inherited' == Pick(inherited, EntriesFrom(d, es, 0), taken) && SeenOf(inherited', seen')
  {
    inherited', seen' := inherited, seen;
    for j := 0 to |es|
      invariant SeenOf(inherited', seen')
      invariant Pick(inherited', EntriesFrom(d, es, j), taken) == Pick(inherited, EntriesFrom(d, es, 0), taken)
    {
      PickConcat(inherited', MethodsFrom(d, es[j], 0), EntriesFrom(d, es, j + 1), taken);
      inherited', seen' := CollectMethods(d, es[j], taken, inherited', seen');
    }
  }

  /** The defaults to be inherited: the selection among the candidates. */
  method CollectInheritedDefaults(d: Decls, implements: seq<Type>, taken: Key -> bool) returns (inherited: seq<Method>)
    ensures inherited == Pick([], Candidates(d, implements), taken)
  {
    var seen := [];
    inherited := [];
    for i := 0 to |implements|
      invariant SeenOf(inherited, seen)
      invariant Pick(inherited, CandidatesFrom(d, implements, i), taken) == Pick([], Candidates(d, implements), taken)
    {
      PickConcat(inherited, DefaultsOf(d, implements[i]), CandidatesFrom(d, implements, i + 1), taken);
      inherited, seen := CollectType(d, implements[i], taken, inherited, seen);
    }
  }

  method CollectType(d: Decls, t: Type, taken: Key -> bool, inherited: seq<Method>, seen: seq<Key>)
    returns (inherited': seq<Method>, seen': seq<Key>)
    requires SeenOf(inherited, seen)
    ensures inherited' == Pick(inherited, DefaultsOf(d, t), taken) && SeenOf(inherited', seen')
  {
    if !t.Struct? {
      return inherited, seen;
    }
    var found := Position(d, t.name, 0);
    if found.None? {
      return inherited, seen;
    }
    FoundIsCanonical(d, t.name);
    ClosureIsReachable(d, Entry(found.value, t.args));
    var visited, closure := CollectIfaceClosure(d, found.value, t.args, [], [], {});
    inherited', seen' := CollectEntries(d, closure, taken, inherited, seen);
  }

  // ----- Generating the blocks -----

  method PushDefaultExtend(target: string, generics: Option<seq<string>>, inherited: seq<Method>, out: seq<Extend>)
    returns (out': seq<Extend>)
    ensures out' == PushDefaults(target, generics, inherited, out)
  {
    if |inherited| == 0 {
      return out;
    }
    return out + [Extend(target, generics, [], inherited, true)];
  }

  function Fold<S, T>(f: (S, T) -> S, xs: seq<T>, k: nat, s: S): S
    requires k <= |xs|
    decreases |xs| - k
  {
    if k == |xs| then s else Fold(f, xs, k + 1, f(s, xs[k]))
  }

  lemma {:induction false} FoldShift<S, T>(f: (S, T) -> S, a: seq<T>, b: seq<T>, k: nat, s: S)
    requires k <= |b|
    ensures Fold(f, a + b, |a| + k, s) == Fold(f, b, k, s)
    decreases |b| - k
  {
    if k < |b| {
      assert (a + b)[|a| + k] == b[k];
      FoldShift(f, a, b, k + 1, f(s, b[k]));
    }
  }

  lemma {:induction false} FoldConcat<S, T>(f: (S, T) -> S, a: seq<T>, b: seq<T>, k: nat, s: S)
    requires k <= |a|
    ensures Fold(f, a + b, k, s) == Fold(f, b, 0, Fold(f, a, k, s))
    decreases |a| - k
  {
    if k == |a| {
      FoldShift(f, a, b, 0, s);
    } else {
      assert (a + b)[k] == a[k];
      FoldConcat(f, a, b, k + 1, f(s, a[k]));
    }
  }

  function Server(blocks: seq<Extend>): (seq<Extend>, Job) -> seq<Extend> {
    (synthesized, j) => Serve(blocks, j, synthesized)
  }

  lemma {:induction false} SynthesizeIsFold(blocks: seq<Extend>, jobs: seq<Job>, k: nat, synthesized: seq<Extend>)
    requires k <= |jobs|
    ensures SynthesizeFrom(blocks, jobs, k, synthesized) == Fold(Server(blocks), jobs, k, synthesized)
    decreases |jobs| - k
  {
    if k < |jobs| {
      SynthesizeIsFold(blocks, jobs, k + 1, Serve(blocks, jobs[k], synthesized));
    }
  }

  lemma {:induction false} SynthesizeConcat(blocks: seq<Extend>, a: seq<Job>, b: seq<Job>, synthesized: seq<Extend>)
    ensures Synthesize(blocks, a + b, synthesized) == Synthesize(blocks, b, Synthesize(blocks, a, synthesized))
  {
    SynthesizeIsFold(blocks, a + b, 0, synthesized);
    SynthesizeIsFold(blocks, a, 0, synthesized);
    SynthesizeIsFold(blocks, b, 0, Synthesize(blocks, a, synthesized));
    FoldConcat(Server(blocks), a, b, 0, synthesized);
  }

  lemma {:induction false} SynthesizeOne(blocks: seq<Extend>, j: Job, synthesized: seq<Extend>)
    ensures Synthesize(blocks, [j], synthesized) == Serve(blocks, j, synthesized)
  {
    var next := Serve(blocks, j, synthesized);
    assert SynthesizeFrom(blocks, [j], 1, next) == next;
  }

  /** The jobs of one declaration, then those of the rest. */
  lemma {:induction false} JobsNext<X>(blocks: seq<Extend>, job: X -> seq<Job>, xs: seq<X>, i: nat, synthesized: seq<Extend>)
    requires i < |xs|
    ensures Synthesize(blocks, JobsFrom(job, xs, i), synthesized) ==
            Synthesize(blocks, JobsFrom(job, xs, i + 1), Synthesize(blocks, job(xs[i]), synthesized))
  {
    SynthesizeConcat(blocks, job(xs[i]), JobsFrom(job, xs, i + 1), synthesized);
  }

  method ServeClass(d: Decls, c: Class, blocks: seq<Extend>, start: seq<Extend>) returns (synthesized: seq<Extend>)
    ensures synthesized == Synthesize(blocks, ClassJob(d)(c), start)
  {
    if c.implements == [] {
      return start;
    }
    SynthesizeOne(blocks, Job(c.name, c.generics, Candidates(d, c.implements), c.methods), start);
    var inherited := CollectInheritedDefaults(d, c.implements, Defined(c.name, c.methods, blocks, start));
    synthesized := PushDefaultExtend(c.name, c.generics, inherited, start);
  }

  method ServeClasses(d: Decls, classes: seq<Class>, blocks: seq<Extend>) returns (synthesized: seq<Extend>)
    ensures synthesized == Synthesize(blocks, JobsFrom(ClassJob(d), classes, 0), [])
  {
    synthesized := [];
    for i := 0 to |classes|
      invariant Synthesize(blocks, JobsFrom(ClassJob(d), classes, i), synthesized) ==
                Synthesize(blocks, JobsFrom(ClassJob(d), classes, 0), [])
    {
      JobsNext(blocks, ClassJob(d), classes, i, synthesized);
      synthesized := ServeClass(d, classes[i], blocks, synthesized);
    }
  }

  method ServeExtend(d: Decls, x: Extend, blocks: seq<Extend>, start: seq<Extend>) returns (synthesized: seq<Extend>)
    ensures synthesized == Synthesize(blocks, ExtendJob(d)(x), start)
  {
    if x.implements == [] || x.generics.Some? {
      return start;
    }
    SynthesizeOne(blocks, Job(x.target, x.generics, Candidates(d, x.implements), x.methods), start);
    var inherited := CollectInheritedDefaults(d, x.implements, Defined(x.target, x.methods, blocks, start));
    synthesized := PushDefaultExtend(x.target, x.generics, inherited, start);
  }

  method ServeExtends(d: Decls, blocks: seq<Extend>, start: seq<Extend>) returns (synthesized: seq<Extend>)
    ensures synthesized == Synthesize(blocks, JobsFrom(ExtendJob(d), blocks, 0), start)
  {
    synthesized := start;
    for i := 0 to |blocks|
      invariant Synthesize(blocks, JobsFrom(ExtendJob(d), blocks, i), synthesized) ==
                Synthesize(blocks, JobsFrom(ExtendJob(d), blocks, 0), start)
    {
      JobsNext(blocks, ExtendJob(d), blocks, i, synthesized);
      synthesized := ServeExtend(d, blocks[i], blocks, synthesized);
    }
  }

  method GenerateInterfaceDefaultImpls(d: Decls, classes: seq<Class>, blocks: seq<Extend>) returns (all: seq<Extend>)
    ensures all == Generate(d, classes, blocks)
  {
    SynthesizeConcat(blocks, JobsFrom(ClassJob(d), classes, 0), JobsFrom(ExtendJob(d), blocks, 0), []);
    var synthesized := ServeClasses(d, classes, blocks);
    synthesized := ServeExtends(d, blocks, synthesized);
    all := blocks + synthesized;
  }
}
