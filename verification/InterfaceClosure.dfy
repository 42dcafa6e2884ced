/** Interfaces, their parents, and the depth-first closure over them.  Hierarchies may be cyclic. */
module InterfaceClosure {
  import opened Containers

  datatype Type = Struct(name: string, args: seq<Type>) | OtherType(text: string)

  datatype Accessor = Plain | Get | Set

  datatype Method = Method(name: string, accessor: Accessor, isDefault: bool, isStatic: bool,
                           returnType: Option<Type>, parameters: seq<Type>, body: nat)

  datatype Interface = Interface(name: string, generics: Option<seq<string>>, parents: seq<Type>, methods: seq<Method>)

  type Bindings = map<string, Type>

  /** The interfaces of a program, and how a type is instantiated under bindings of type parameters. */
  datatype Decls = Decls(interfaces: seq<Interface>, substitute: (Type, Bindings) -> Type)

  /** An interface of the closure, with the type arguments it is reached with. */
  datatype Entry = Entry(idx: nat, args: seq<Type>)

  predicate Known(d: Decls, e: Entry) { e.idx < |d.interfaces| }

  /** The first interface called `name`. */
  function Position(d: Decls, name: string, from: nat): (r: Option<nat>)
    requires from <= |d.interfaces|
    ensures r.Some? ==> from <= r.value < |d.interfaces| && d.interfaces[r.value].name == name
    ensures forall j :: from <= j < (if r.Some? then r.value else |d.interfaces|) ==> d.interfaces[j].name != name
    decreases |d.interfaces| - from
  {
    if from == |d.interfaces| then None
    else if d.interfaces[from].name == name then Some(from)
    else Position(d, name, from + 1)
  }

  /** The interface a type names, if it does. */
  function Resolve(d: Decls, t: Type): (r: Option<nat>)
    ensures r.Some? ==> r.value < |d.interfaces|
  {
    if t.Struct? then Position(d, t.name, 0) else None
  }

  function Args(t: Type): seq<Type> { if t.Struct? then t.args else [] }

  function Bind(params: seq<string>, args: seq<Type>, n: nat): Bindings
    requires n <= |params| && n <= |args|
  {
    if n == 0 then map[] else Bind(params, args, n - 1)[params[n - 1] := args[n - 1]]
  }

  function BindingsOf(d: Decls, e: Entry): Bindings
    requires Known(d, e)
  {
    match d.interfaces[e.idx].generics
    case None => map[]
    case Some(params) => Bind(params, e.args, if |params| < |e.args| then |params| else |e.args|)
  }

  function Parents(d: Decls, e: Entry): seq<Type>
    requires Known(d, e)
  {
    d.interfaces[e.idx].parents
  }

  /** Parent number `k` of an interface, unless its name is not that of an interface. */
  function Parent(d: Decls, e: Entry, k: nat): (r: Option<Entry>)
    requires Known(d, e) && k < |Parents(d, e)|
    ensures r.Some? ==> Known(d, r.value)
  {
    var t := Parents(d, e)[k];
    match Resolve(d, t)
    case None => None
    case Some(idx) =>
      var bindings := BindingsOf(d, e);
      Some(Entry(idx, seq(|Args(t)|, i requires 0 <= i < |Args(t)| => d.substitute(Args(t)[i], bindings))))
  }

  // ----- The reference: all paths, cut where they close a cycle -----

  function Below(n: nat): (r: set<nat>)
    ensures forall i: nat :: i in r <==> i < n
  {
    if n == 0 then {} else Below(n - 1) + {n - 1}
  }

  function Universe(d: Decls): set<nat> { Below(|d.interfaces|) }

  /** The interfaces met in depth-first preorder along all paths that do not meet an interface twice and
  avoid `path`.  Nothing is remembered from one branch to the next: interfaces repeat. */
  function Unfold(d: Decls, e: Entry, path: set<nat>): seq<Entry>
    requires Known(d, e)
    decreases |Universe(d) - path|, 0
  {
    if e.idx in path then []
    else
      Shrinks(Universe(d) - path, e.idx, Universe(d) - (path + {e.idx}));
      [e] + UnfoldParents(d, e, 0, path + {e.idx})
  }

  function UnfoldParents(d: Decls, e: Entry, k: nat, path: set<nat>): seq<Entry>
    requires Known(d, e) && k <= |Parents(d, e)|
    decreases |Universe(d) - path|, 1 + |Parents(d, e)| - k
  {
    if k == |Parents(d, e)| then []
    else
      (match Parent(d, e, k)
       case None => []
       case Some(p) => Unfold(d, p, path)) +
      UnfoldParents(d, e, k + 1, path)
  }

  lemma {:induction false} Shrinks(s: set<nat>, x: nat, s': set<nat>)
    requires x in s && s' == s - {x}
    ensures |s'| < |s|
  {
  }

  predicate Listed(out: seq<Entry>, idx: nat) { exists i :: 0 <= i < |out| && out[i].idx == idx }

  /** Appends what is new in `es`, in order. */
  function AppendNew(out: seq<Entry>, es: seq<Entry>): (r: seq<Entry>) { AppendFrom(out, es, 0) }

  function AppendFrom(out: seq<Entry>, es: seq<Entry>, k: nat): (r: seq<Entry>)
    requires k <= |es|
    decreases |es| - k
  {
    if k == |es| then out else AppendFrom(WithNew(out, es[k]), es, k + 1)
  }

  function WithNew(out: seq<Entry>, e: Entry): seq<Entry> { if Listed(out, e.idx) then out else out + [e] }

  /** The closure of an interface: the first occurrences in the unfolding. */
  function Closure(d: Decls, e: Entry): seq<Entry>
    requires Known(d, e)
  {
    AppendNew([], Unfold(d, e, {}))
  }

  // ----- Appending -----

  lemma {:induction false} AppendShift(out: seq<Entry>, a: seq<Entry>, b: seq<Entry>, k: nat)
    requires k <= |b|
    ensures AppendFrom(out, a + b, |a| + k) == AppendFrom(out, b, k)
    decreases |b| - k
  {
    if k < |b| {
      assert (a + b)[|a| + k] == b[k];
      AppendShift(WithNew(out, b[k]), a, b, k + 1);
    }
  }

  lemma {:induction false} AppendThrough(out: seq<Entry>, a: seq<Entry>, b: seq<Entry>, k: nat)
    requires k <= |a|
    ensures AppendFrom(out, a + b, k) == AppendFrom(AppendFrom(out, a, k), b, 0)
    decreases |a| - k
  {
    if k == |a| {
      AppendShift(out, a, b, 0);
    } else {
      assert (a + b)[k] == a[k];
      AppendThrough(WithNew(out, a[k]), a, b, k + 1);
    }
  }

  lemma {:induction false} AppendConcat(out: seq<Entry>, a: seq<Entry>, b: seq<Entry>)
    ensures AppendNew(out, a + b) == AppendNew(AppendNew(out, a), b)
  {
    AppendThrough(out, a, b, 0);
  }

  predicate AllListed(out: seq<Entry>, es: seq<Entry>) { forall i :: 0 <= i < |es| ==> Listed(out, es[i].idx) }

  lemma {:induction false} AppendOldFrom(out: seq<Entry>, es: seq<Entry>, k: nat)
    requires AllListed(out, es) && k <= |es|
    ensures AppendFrom(out, es, k) == out
    decreases |es| - k
  {
    if k < |es| {
      AppendOldFrom(out, es, k + 1);
    }
  }

  lemma {:induction false} AppendOld(out: seq<Entry>, es: seq<Entry>)
    requires AllListed(out, es)
    ensures AppendNew(out, es) == out
  {
    AppendOldFrom(out, es, 0);
  }

  ghost predicate Distinct(out: seq<Entry>) { forall i, j :: 0 <= i < j < |out| ==> out[i].idx != out[j].idx }

  lemma {:induction false} WithNewLists(out: seq<Entry>, e: Entry, idx: nat)
    ensures out <= WithNew(out, e) && (Distinct(out) ==> Distinct(WithNew(out, e)))
    ensures Listed(WithNew(out, e), idx) <==> Listed(out, idx) || e.idx == idx
  {
    var r := WithNew(out, e);
    if Listed(out, idx) {
      var i :| 0 <= i < |out| && out[i].idx == idx;
      assert r[i].idx == idx;
    } else if e.idx == idx {
      assert r[|out|].idx == idx;
    }
  }

  /** `idx` is in `es` from number `k` on. */
  predicate ListedFrom(es: seq<Entry>, k: nat, idx: nat) { exists i :: k <= i < |es| && es[i].idx == idx }

  lemma {:induction false} AppendListsFrom(out: seq<Entry>, es: seq<Entry>, k: nat, idx: nat)
    requires k <= |es|
    ensures out <= AppendFrom(out, es, k)
    ensures Distinct(out) ==> Distinct(AppendFrom(out, es, k))
    ensures Listed(AppendFrom(out, es, k), idx) <==> Listed(out, idx) || ListedFrom(es, k, idx)
    decreases |es| - k
  {
    if k < |es| {
      WithNewLists(out, es[k], idx);
      AppendListsFrom(WithNew(out, es[k]), es, k + 1, idx);
    }
  }

  /** Appending lists what is appended, keeps what was listed, and lists nothing twice. */
  lemma {:induction false} AppendLists(out: seq<Entry>, es: seq<Entry>)
    ensures out <= AppendNew(out, es)
    ensures Distinct(out) ==> Distinct(AppendNew(out, es))
    ensures forall idx :: Listed(AppendNew(out, es), idx) <==> Listed(out, idx) || Listed(es, idx)
  {
    AppendListsFrom(out, es, 0, 0);
    forall idx: nat ensures Listed(AppendNew(out, es), idx) <==> Listed(out, idx) || Listed(es, idx) {
      AppendListsFrom(out, es, 0, idx);
      assert ListedFrom(es, 0, idx) <==> Listed(es, idx);
    }
  }

  // ----- The closure holds exactly what can be reached -----

  /** The interface that parent number `k` of interface `idx` names. */
  function Successor(d: Decls, idx: nat, k: nat): Option<nat>
    requires idx < |d.interfaces| && k < |d.interfaces[idx].parents|
  {
    Resolve(d, d.interfaces[idx].parents[k])
  }

  ghost predicate Good(d: Decls, out: seq<Entry>) { forall i :: 0 <= i < |out| ==> Known(d, out[i]) }

  /** The parents of `idx` from number `from` on are listed. */
  ghost predicate ParentsListed(d: Decls, out: seq<Entry>, idx: nat, from: nat) {
    idx < |d.interfaces| &&
    forall k {:trigger Successor(d, idx, k)} :: from <= k < |d.interfaces[idx].parents| && Successor(d, idx, k).Some? ==>
      Listed(out, Successor(d, idx, k).value)
  }

  /** All that is listed, except the interfaces on `path`, has its parents listed too. */
  ghost predicate Closed(d: Decls, out: seq<Entry>, path: set<nat>) {
    forall idx {:trigger ParentsListed(d, out, idx, 0)} ::
      Listed(out, idx) && idx !in path ==> ParentsListed(d, out, idx, 0)
  }

  /** The interfaces on the path are listed. */
  ghost predicate Open(out: seq<Entry>, path: set<nat>) { forall idx :: idx in path ==> Listed(out, idx) }

  lemma {:induction false} ListedKnown(d: Decls, out: seq<Entry>, idx: nat)
    requires Good(d, out) && Listed(out, idx)
    ensures idx < |d.interfaces|
  {
  }

  lemma {:induction false} ListedPrefix(out: seq<Entry>, r: seq<Entry>, idx: nat)
    requires out <= r && Listed(out, idx)
    ensures Listed(r, idx)
  {
    var i :| 0 <= i < |out| && out[i].idx == idx;
    assert r[i] == out[i];
  }

  lemma {:induction false} AllListedConcat(out: seq<Entry>, a: seq<Entry>, b: seq<Entry>)
    requires AllListed(out, a) && AllListed(out, b)
    ensures AllListed(out, a + b)
  {
  }

  lemma {:induction false} ClosedMore(d: Decls, out: seq<Entry>, path: set<nat>, idx: nat)
    requires Closed(d, out, path)
    ensures Closed(d, out, path + {idx})
  {
    forall i: nat | Listed(out, i) && i !in path + {idx} ensures ParentsListed(d, out, i, 0) {
      assert i !in path;
    }
  }

  /** Visiting again an interface that has been left finds nothing new. */
  lemma {:induction false} NothingNew(d: Decls, e: Entry, path: set<nat>, out: seq<Entry>)
    requires Known(d, e) && Closed(d, out, path) && Listed(out, e.idx)
    ensures AllListed(out, Unfold(d, e, path))
    decreases |Universe(d) - path|, 0
  {
    if e.idx !in path {
      assert ParentsListed(d, out, e.idx, 0);
      var path1 := path + {e.idx};
      Shrinks(Universe(d) - path, e.idx, Universe(d) - path1);
      ClosedMore(d, out, path, e.idx);
      NothingNewAbove(d, e, 0, path1, out);
      AllListedConcat(out, [e], UnfoldParents(d, e, 0, path1));
    }
  }

  lemma {:induction false} NothingNewAbove(d: Decls, e: Entry, k: nat, path: set<nat>, out: seq<Entry>)
    requires Known(d, e) && k <= |Parents(d, e)| && Closed(d, out, path) && ParentsListed(d, out, e.idx, 0)
    ensures AllListed(out, UnfoldParents(d, e, k, path))
    decreases |Universe(d) - path|, 1 + |Parents(d, e)| - k
  {
    if k < |Parents(d, e)| {
      NothingNewAbove(d, e, k + 1, path, out);
      var p := Parent(d, e, k);
      if p.Some? {
        assert Successor(d, e.idx, k) == Some(p.value.idx);
        NothingNew(d, p.value, path, out);
        AllListedConcat(out, Unfold(d, p.value, path), UnfoldParents(d, e, k + 1, path));
      } else {
        AllListedConcat(out, [], UnfoldParents(d, e, k + 1, path));
      }
    }
  }

  lemma {:induction false} AppendFirst(out: seq<Entry>, e: Entry, es: seq<Entry>)
    requires !Listed(out, e.idx)
    ensures AppendNew(out, [e] + es) == AppendNew(out + [e], es)
  {
    assert ([e] + es)[0] == e;
    AppendShift(out + [e], [e], es, 0);
  }

  /** What holds of a list once the unfolding of `e` has been appended. */
  lemma {:induction false} UnfoldCloses(d: Decls, e: Entry, path: set<nat>, out: seq<Entry>)
    requires Known(d, e) && Good(d, out) && Open(out, path) && Closed(d, out, path)
    ensures var r := AppendNew(out, Unfold(d, e, path));
            Good(d, r) && Closed(d, r, path) && Listed(r, e.idx) && out <= r
    decreases |Universe(d) - path|, 0, 0
  {
    AppendLists(out, Unfold(d, e, path));
    if Listed(out, e.idx) {
      NothingNew(d, e, path, out);
      AppendOld(out, Unfold(d, e, path));
    } else {
      var out1, path1 := out + [e], path + {e.idx};
      Shrinks(Universe(d) - path, e.idx, Universe(d) - path1);
      Entered(d, e, path, out);
      var r := AppendNew(out1, UnfoldParents(d, e, 0, path1));
      ParentsClose(d, e, 0, path1, out1, r);
      AppendFirst(out, e, UnfoldParents(d, e, 0, path1));
      forall i: nat | Listed(r, i) && i !in path ensures ParentsListed(d, r, i, 0) {
        assert i == e.idx || i !in path1;
      }
      assert out1[|out|] == e;
      ListedPrefix(out1, r, e.idx);
    }
  }

  /** Entering an interface puts it on the path. */
  lemma {:induction false} Entered(d: Decls, e: Entry, path: set<nat>, out: seq<Entry>)
    requires Known(d, e) && !Listed(out, e.idx) && Good(d, out) && Open(out, path) && Closed(d, out, path)
    ensures var out1, path1 := out + [e], path + {e.idx};
            Good(d, out1) && Open(out1, path1) && Closed(d, out1, path1)
  {
    var out1, path1 := out + [e], path + {e.idx};
    assert out1[|out|] == e;
    forall i | i in path1 ensures Listed(out1, i) {
      if i != e.idx {
        ListedPrefix(out, out1, i);
      }
    }
    forall i: nat | Listed(out1, i) && i !in path1 ensures ParentsListed(d, out1, i, 0) {
      WithNewLists(out, e, i);
      assert Listed(out, i) && ParentsListed(d, out, i, 0);
      forall k | 0 <= k < |d.interfaces[i].parents| && Successor(d, i, k).Some?
        ensures Listed(out1, Successor(d, i, k).value)
      {
        ListedPrefix(out, out1, Successor(d, i, k).value);
      }
    }
  }

  /** Appending the unfolding of one parent. */
  lemma {:induction false} NextParent(d: Decls, e: Entry, k: nat, path: set<nat>, out: seq<Entry>) returns (r: seq<Entry>)
    requires Known(d, e) && k < |Parents(d, e)| && Good(d, out) && Open(out, path) && Closed(d, out, path)
    ensures AppendNew(out, UnfoldParents(d, e, k, path)) == AppendNew(r, UnfoldParents(d, e, k + 1, path))
    ensures Good(d, r) && Open(r, path) && Closed(d, r, path) && out <= r
    ensures Parent(d, e, k).Some? ==> Listed(r, Parent(d, e, k).value.idx)
    decreases |Universe(d) - path|, 1, 0
  {
    var p, rest := Parent(d, e, k), UnfoldParents(d, e, k + 1, path);
    r := out;
    if p.Some? {
      UnfoldCloses(d, p.value, path, out);
      r := AppendNew(out, Unfold(d, p.value, path));
      AppendConcat(out, Unfold(d, p.value, path), rest);
      OpenStays(out, r, path);
    } else {
      assert [] + rest == rest;
    }
  }

  lemma {:induction false} ParentsClose(d: Decls, e: Entry, k: nat, path: set<nat>, out: seq<Entry>, r: seq<Entry>)
    requires Known(d, e) && k <= |Parents(d, e)| && Good(d, out) && Open(out, path) && Closed(d, out, path)
    requires r == AppendNew(out, UnfoldParents(d, e, k, path))
    ensures Good(d, r) && Closed(d, r, path) && ParentsListed(d, r, e.idx, k) && out <= r
    decreases |Universe(d) - path|, 2, |Parents(d, e)| - k
  {
    if k < |Parents(d, e)| {
      var r1 := NextParent(d, e, k, path, out);
      ParentsClose(d, e, k + 1, path, r1, r);
      ParentListed(d, e, k, r1, r);
    }
  }

  lemma {:induction false} OpenStays(out: seq<Entry>, r: seq<Entry>, path: set<nat>)
    requires Open(out, path) && out <= r
    ensures Open(r, path)
  {
    forall i | i in path ensures Listed(r, i) {
      ListedPrefix(out, r, i);
    }
  }

  lemma {:induction false} ParentListed(d: Decls, e: Entry, k: nat, r1: seq<Entry>, r: seq<Entry>)
    requires Known(d, e) && k < |Parents(d, e)| && r1 <= r && ParentsListed(d, r, e.idx, k + 1)
    requires Parent(d, e, k).Some? ==> Listed(r1, Parent(d, e, k).value.idx)
    ensures ParentsListed(d, r, e.idx, k)
  {
    var p := Parent(d, e, k);
    assert Successor(d, e.idx, k) == if p.Some? then Some(p.value.idx) else None;
    if p.Some? {
      ListedPrefix(r1, r, p.value.idx);
    }
  }

  /** `b` is reached from `a` in `n` steps from an interface to a parent. */
  ghost predicate Reaches(d: Decls, a: nat, b: nat, n: nat)
    requires a < |d.interfaces|
    decreases n
  {
    if n == 0 then a == b
    else exists k :: 0 <= k < |d.interfaces[a].parents| && Successor(d, a, k).Some? && Reaches(d, Successor(d, a, k).value, b, n - 1)
  }

  ghost predicate Reachable(d: Decls, a: nat, b: nat)
    requires a < |d.interfaces|
  {
    exists n :: Reaches(d, a, b, n)
  }

  lemma {:induction false} ReachableListed(d: Decls, out: seq<Entry>, a: nat, b: nat, n: nat)
    requires a < |d.interfaces| && Closed(d, out, {}) && Listed(out, a) && Reaches(d, a, b, n)
    ensures Listed(out, b)
    decreases n
  {
    if n > 0 {
      var k :| 0 <= k < |d.interfaces[a].parents| && Successor(d, a, k).Some? && Reaches(d, Successor(d, a, k).value, b, n - 1);
      assert ParentsListed(d, out, a, 0);
      ReachableListed(d, out, Successor(d, a, k).value, b, n - 1);
    }
  }

  ghost predicate AllReachable(d: Decls, a: nat, es: seq<Entry>)
    requires a < |d.interfaces|
  {
    forall i :: 0 <= i < |es| ==> Reachable(d, a, es[i].idx)
  }

  lemma {:induction false} UnfoldReachable(d: Decls, e: Entry, path: set<nat>)
    requires Known(d, e)
    ensures AllReachable(d, e.idx, Unfold(d, e, path))
    decreases |Universe(d) - path|, 0
  {
    if e.idx !in path {
      var path1 := path + {e.idx};
      Shrinks(Universe(d) - path, e.idx, Universe(d) - path1);
      ParentsReachable(d, e, 0, path1);
      assert Reaches(d, e.idx, e.idx, 0);
    }
  }

  lemma {:induction false} ParentsReachable(d: Decls, e: Entry, k: nat, path: set<nat>)
    requires Known(d, e) && k <= |Parents(d, e)|
    ensures AllReachable(d, e.idx, UnfoldParents(d, e, k, path))
    decreases |Universe(d) - path|, 1 + |Parents(d, e)| - k
  {
    if k < |Parents(d, e)| {
      ParentsReachable(d, e, k + 1, path);
      var p := Parent(d, e, k);
      if p.Some? {
        UnfoldReachable(d, p.value, path);
        ReachableThrough(d, e.idx, k, Unfold(d, p.value, path));
      }
    }
  }

  lemma {:induction false} ReachableThrough(d: Decls, a: nat, k: nat, es: seq<Entry>)
    requires a < |d.interfaces| && k < |d.interfaces[a].parents| && Successor(d, a, k).Some?
    requires AllReachable(d, Successor(d, a, k).value, es)
    ensures AllReachable(d, a, es)
  {
    var c := Successor(d, a, k).value;
    forall i | 0 <= i < |es| ensures Reachable(d, a, es[i].idx) {
      var n: nat :| Reaches(d, c, es[i].idx, n);
      assert Reaches(d, a, es[i].idx, n + 1);
    }
  }

  /** The closure lists exactly the interfaces that can be reached, each once, starting with the first. */
  lemma {:induction false} ClosureIsReachable(d: Decls, e: Entry)
    requires Known(d, e)
    ensures Distinct(Closure(d, e)) && Good(d, Closure(d, e))
    ensures forall b :: Listed(Closure(d, e), b) <==> Reachable(d, e.idx, b)
    ensures Closure(d, e) != [] && Closure(d, e)[0] == e
  {
    var u, r := Unfold(d, e, {}), Closure(d, e);
    AppendLists([], u);
    UnfoldCloses(d, e, {}, []);
    UnfoldReachable(d, e, {});
    forall b ensures Listed(r, b) <==> Reachable(d, e.idx, b) {
      if Reachable(d, e.idx, b) {
        var n: nat :| Reaches(d, e.idx, b, n);
        ReachableListed(d, r, e.idx, b, n);
      } else {
        assert !Listed([], b);
      }
    }
    AppendFirst([], e, UnfoldParents(d, e, 0, {} + {e.idx}));
    AppendLists([] + [e], UnfoldParents(d, e, 0, {} + {e.idx}));
  }
}
