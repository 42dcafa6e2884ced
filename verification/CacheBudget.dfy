/** The size cap of a cache directory: once the entries are over budget, the least recently used ones
are removed, except those used in the last fifteen minutes.  Times are in nanoseconds.
 */
module CacheBudget {

  type u64 = x: int | 0 <= x < 0x1_0000_0000_0000_0000

  const MAX: u64 := 0xffff_ffff_ffff_ffff

  const MIN_AGE := 15 * 60 * 1_000_000_000

  /** An entry of the directory; `removable` says whether the file system lets it be removed. */
  datatype Entry = Entry(path: string, bytes: u64, modified: int, removable: bool)

  function SatAdd(a: u64, b: u64): u64 { if a as int + b as int > MAX then MAX else a + b }

  function SatSub(a: nat, b: nat): nat { if a < b then 0 else a - b }

  predicate OldEnough(e: Entry, now: int) { now - e.modified >= MIN_AGE }

  predicate Eligible(e: Entry, now: int) { OldEnough(e, now) && e.removable }

  // ----- The order -----

  predicate PathLess(a: string, b: string) {
    if b == [] then false else if a == [] then true else a[0] < b[0] || (a[0] == b[0] && PathLess(a[1..], b[1..]))
  }

  predicate Precedes(a: Entry, b: Entry) {
    a.modified < b.modified || (a.modified == b.modified && PathLess(a.path, b.path))
  }

  lemma {:induction false} PathTotal(a: string, b: string)
    ensures a == b || PathLess(a, b) || PathLess(b, a)
    decreases |a|
  {
    if a != [] && b != [] && a[0] == b[0] {
      PathTotal(a[1..], b[1..]);
      assert a == [a[0]] + a[1..] && b == [b[0]] + b[1..];
    }
  }

  lemma {:induction false} PathTransitive(a: string, b: string, c: string)
    requires PathLess(a, b) && PathLess(b, c)
    ensures PathLess(a, c)
    decreases |a|
  {
    if a != [] && b != [] && c != [] && a[0] == b[0] == c[0] {
      PathTransitive(a[1..], b[1..], c[1..]);
    }
  }

  lemma {:induction false} PathIrreflexive(a: string)
    ensures !PathLess(a, a)
    decreases |a|
  {
    if a != [] {
      PathIrreflexive(a[1..]);
    }
  }

  lemma {:induction false} PrecedesTransitive(a: Entry, b: Entry, c: Entry)
    requires Precedes(a, b) && Precedes(b, c)
    ensures Precedes(a, c)
  {
    if a.modified == b.modified == c.modified {
      PathTransitive(a.path, b.path, c.path);
    }
  }

  lemma {:induction false} PrecedesIrreflexive(a: Entry, b: Entry)
    requires Precedes(a, b)
    ensures !Precedes(b, a) && a != b
  {
    PathIrreflexive(a.path);
    if Precedes(b, a) {
      PrecedesTransitive(a, b, a);
    }
  }

  // ----- Sorting -----

  predicate Sorted(s: seq<Entry>) { forall i, j :: 0 <= i < j < |s| ==> Precedes(s[i], s[j]) }

  predicate Fresh(e: Entry, s: seq<Entry>) { forall i :: 0 <= i < |s| ==> s[i].path != e.path }

  predicate DistinctPaths(s: seq<Entry>) { forall i, j :: 0 <= i < j < |s| ==> s[i].path != s[j].path }

  function Insert(e: Entry, s: seq<Entry>): seq<Entry> {
    if s == [] || Precedes(e, s[0]) then [e] + s else [s[0]] + Insert(e, s[1..])
  }

  function Sort(s: seq<Entry>): seq<Entry> { if s == [] then [] else Insert(s[|s| - 1], Sort(s[..|s| - 1])) }

  lemma {:induction false} InsertMembers(e: Entry, s: seq<Entry>)
    ensures forall x :: x in Insert(e, s) <==> x == e || x in s
    decreases |s|
  {
    if s != [] && !Precedes(e, s[0]) {
      InsertMembers(e, s[1..]);
      assert s == [s[0]] + s[1..];
    }
  }

  lemma {:induction false} SortMembers(s: seq<Entry>)
    ensures forall x :: x in Sort(s) <==> x in s
    decreases |s|
  {
    if s != [] {
      var last := |s| - 1;
      SortMembers(s[..last]);
      InsertMembers(s[last], Sort(s[..last]));
      assert s == s[..last] + [s[last]];
    }
  }

  lemma {:induction false} SortedCons(e: Entry, s: seq<Entry>)
    requires Sorted(s) && forall x :: x in s ==> Precedes(e, x)
    ensures Sorted([e] + s)
  {
  }

  lemma {:induction false} InsertSorted(e: Entry, s: seq<Entry>)
    requires Sorted(s) && Fresh(e, s)
    ensures Sorted(Insert(e, s))
    decreases |s|
  {
    if s == [] || Precedes(e, s[0]) {
      forall x | x in s ensures Precedes(e, x) {
        if x != s[0] {
          var i :| 0 <= i < |s| && s[i] == x;
          PrecedesTransitive(e, s[0], x);
        }
      }
      SortedCons(e, s);
    } else {
      PathTotal(e.path, s[0].path);
      InsertSorted(e, s[1..]);
      InsertMembers(e, s[1..]);
      SortedCons(s[0], Insert(e, s[1..]));
    }
  }

  lemma {:induction false} SortSorted(s: seq<Entry>)
    requires DistinctPaths(s)
    ensures Sorted(Sort(s))
    decreases |s|
  {
    if s != [] {
      var last := |s| - 1;
      SortSorted(s[..last]);
      SortMembers(s[..last]);
      forall i | 0 <= i < |Sort(s[..last])| ensures Sort(s[..last])[i].path != s[last].path {
        assert Sort(s[..last])[i] in s[..last];
      }
      InsertSorted(s[last], Sort(s[..last]));
    }
  }

  // ----- Eviction -----

  function Total(s: seq<Entry>): u64 { if s == [] then 0 else SatAdd(Total(s[..|s| - 1]), s[|s| - 1].bytes) }

  /** What is removed of the entries from number `i` on, `total` being the size that counts. */
  function Evict(s: seq<Entry>, i: nat, now: int, budget: nat, total: nat): seq<Entry>
    requires i <= |s|
    decreases |s| - i
  {
    if i == |s| || total <= budget then []
    else if !Eligible(s[i], now) then Evict(s, i + 1, now, budget, total)
    else [s[i]] + Evict(s, i + 1, now, budget, SatSub(total, s[i].bytes))
  }

  function Removed(entries: seq<Entry>, now: int, budget: nat): seq<Entry> {
    Evict(Sort(entries), 0, now, budget, Total(entries))
  }

  /** The entries that may be removed, from number `i` on. */
  function Candidates(s: seq<Entry>, i: nat, now: int): seq<Entry>
    requires i <= |s|
    decreases |s| - i
  {
    if i == |s| then []
    else (if Eligible(s[i], now) then [s[i]] else []) + Candidates(s, i + 1, now)
  }

  /** The size of the first `n` entries. */
  function SumTo(s: seq<Entry>, n: nat): nat
    requires n <= |s|
  {
    if n == 0 then 0 else SumTo(s, n - 1) + s[n - 1].bytes
  }

  lemma {:induction false} SumCons(e: Entry, s: seq<Entry>, n: nat)
    requires n <= |s|
    ensures SumTo([e] + s, n + 1) == e.bytes + SumTo(s, n)
    decreases n
  {
    if n > 0 {
      SumCons(e, s, n - 1);
      assert ([e] + s)[n] == s[n - 1];
    }
  }

  /** `r` is the shortest prefix of `c` whose removal brings `total` within budget, or all of `c`. */
  ghost predicate Shortest(r: seq<Entry>, c: seq<Entry>, budget: nat, total: nat) {
    && r <= c && (|r| < |c| ==> SatSub(total, SumTo(c, |r|)) <= budget)
    && forall j {:trigger SumTo(c, j)} :: 0 <= j < |r| ==> SatSub(total, SumTo(c, j)) > budget
  }

  lemma {:induction false} ShortestCons(e: Entry, r: seq<Entry>, c: seq<Entry>, budget: nat, total: nat)
    requires total > budget && Shortest(r, c, budget, SatSub(total, e.bytes))
    ensures Shortest([e] + r, [e] + c, budget, total)
  {
    SumCons(e, c, |r|);
    forall j | 0 <= j < |[e] + r| ensures SatSub(total, SumTo([e] + c, j)) > budget {
      if j > 0 {
        SumCons(e, c, j - 1);
        assert SatSub(SatSub(total, e.bytes), SumTo(c, j - 1)) > budget;
      }
    }
  }

  lemma {:induction false} EvictIsShortest(s: seq<Entry>, i: nat, now: int, budget: nat, total: nat)
    requires i <= |s|
    ensures Shortest(Evict(s, i, now, budget, total), Candidates(s, i, now), budget, total)
    decreases |s| - i
  {
    if i < |s| && total > budget {
      if Eligible(s[i], now) {
        var rest := SatSub(total, s[i].bytes);
        EvictIsShortest(s, i + 1, now, budget, rest);
        ShortestCons(s[i], Evict(s, i + 1, now, budget, rest), Candidates(s, i + 1, now), budget, total);
      } else {
        EvictIsShortest(s, i + 1, now, budget, total);
        assert [] + Candidates(s, i + 1, now) == Candidates(s, i + 1, now);
      }
    }
  }

  /** What is removed is the shortest prefix, in order of use, of the entries that may be removed that
  brings the total within budget, or all of them if none does. */
  lemma {:induction false} RemovesShortestPrefix(entries: seq<Entry>, now: int, budget: nat)
    ensures Shortest(Removed(entries, now, budget), Candidates(Sort(entries), 0, now), budget, Total(entries))
  {
    EvictIsShortest(Sort(entries), 0, now, budget, Total(entries));
  }

  // ----- Which entries go, without sorting -----

  /** The size of the removable entries that were used before `e`. */
  function SumBefore(s: seq<Entry>, e: Entry, now: int): nat {
    if s == [] then 0
    else
      SumBefore(s[..|s| - 1], e, now) +
      if Eligible(s[|s| - 1], now) && Precedes(s[|s| - 1], e) then s[|s| - 1].bytes else 0
  }

  lemma {:induction false} SumBeforeConcat(a: seq<Entry>, b: seq<Entry>, e: Entry, now: int)
    ensures SumBefore(a + b, e, now) == SumBefore(a, e, now) + SumBefore(b, e, now)
    decreases |b|
  {
    if b == [] {
      assert a + b == a;
    } else {
      assert (a + b)[..|a + b| - 1] == a + b[..|b| - 1];
      SumBeforeConcat(a, b[..|b| - 1], e, now);
    }
  }

  lemma {:induction false} SumBeforeInsert(x: Entry, s: seq<Entry>, e: Entry, now: int)
    ensures SumBefore(Insert(x, s), e, now) == SumBefore([x], e, now) + SumBefore(s, e, now)
    decreases |s|
  {
    if s == [] || Precedes(x, s[0]) {
      SumBeforeConcat([x], s, e, now);
    } else {
      SumBeforeInsert(x, s[1..], e, now);
      SumBeforeConcat([s[0]], Insert(x, s[1..]), e, now);
      SumBeforeConcat([s[0]], s[1..], e, now);
      assert s == [s[0]] + s[1..];
    }
  }

  lemma {:induction false} SumBeforeSort(s: seq<Entry>, e: Entry, now: int)
    ensures SumBefore(Sort(s), e, now) == SumBefore(s, e, now)
    decreases |s|
  {
    if s != [] {
      var last := |s| - 1;
      SumBeforeSort(s[..last], e, now);
      SumBeforeInsert(s[last], Sort(s[..last]), e, now);
      SumBeforeConcat(s[..last], [s[last]], e, now);
      assert s == s[..last] + [s[last]];
    }
  }

  /** Only what stands before an entry of a sorted list counts. */
  lemma {:induction false} SumBeforeSorted(s: seq<Entry>, k: nat, n: nat, now: int)
    requires Sorted(s) && k < n <= |s|
    ensures SumBefore(s[..n], s[k], now) == SumBefore(s[..k], s[k], now)
    decreases n
  {
    assert s[..n][..n - 1] == s[..n - 1];
    if n - 1 == k {
      PathIrreflexive(s[k].path);
    } else {
      SumBeforeSorted(s, k, n - 1, now);
      PrecedesIrreflexive(s[k], s[n - 1]);
    }
  }

  /** In a sorted list, what stands before an entry was used before it. */
  lemma {:induction false} SumBeforeStep(s: seq<Entry>, i: nat, k: nat, now: int)
    requires Sorted(s) && i < k < |s|
    ensures SumBefore(s[..i + 1], s[k], now) == SumBefore(s[..i], s[k], now) + if Eligible(s[i], now) then s[i].bytes else 0
  {
    assert s[..i + 1][..i] == s[..i];
  }

  lemma {:induction false} EvictMembers(s: seq<Entry>, i: nat, now: int, budget: nat, total: nat, e: Entry)
    requires i <= |s| && e in Evict(s, i, now, budget, total)
    ensures e in s[i..]
    decreases |s| - i
  {
    if i < |s| && total > budget {
      assert s[i..] == [s[i]] + s[i + 1..];
      if Eligible(s[i], now) {
        if e != s[i] {
          EvictMembers(s, i + 1, now, budget, SatSub(total, s[i].bytes), e);
        }
      } else {
        EvictMembers(s, i + 1, now, budget, total, e);
      }
    }
  }

  /** Entry `k` of a sorted list goes exactly if it may and what goes before it does not suffice. */
  lemma {:induction false} EvictIff(s: seq<Entry>, i: nat, k: nat, now: int, budget: nat, total: nat, whole: nat)
    requires Sorted(s) && i <= k < |s| && total == SatSub(whole, SumBefore(s[..i], s[k], now))
    ensures s[k] in Evict(s, i, now, budget, total) <==>
            Eligible(s[k], now) && SatSub(whole, SumBefore(s[..k], s[k], now)) > budget
    decreases |s| - i
  {
    if total <= budget {
      SumBeforeGrows(s, i, k, s[k], now);
    } else if i == k {
      EvictHead(s, i, now, budget, total);
    } else {
      SumBeforeStep(s, i, k, now);
      PrecedesIrreflexive(s[i], s[k]);
      var rest := if Eligible(s[i], now) then SatSub(total, s[i].bytes) else total;
      EvictIff(s, i + 1, k, now, budget, rest, whole);
    }
  }

  lemma {:induction false} EvictHead(s: seq<Entry>, i: nat, now: int, budget: nat, total: nat)
    requires Sorted(s) && i < |s| && total > budget
    ensures s[i] in Evict(s, i, now, budget, total) <==> Eligible(s[i], now)
  {
    if !Eligible(s[i], now) && s[i] in Evict(s, i + 1, now, budget, total) {
      EvictMembers(s, i + 1, now, budget, total, s[i]);
      var j :| 0 <= j < |s[i + 1..]| && s[i + 1..][j] == s[i];
      PrecedesIrreflexive(s[i], s[i + 1 + j]);
    }
  }

  lemma {:induction false} SumBeforeGrows(s: seq<Entry>, i: nat, k: nat, e: Entry, now: int)
    requires i <= k <= |s|
    ensures SumBefore(s[..i], e, now) <= SumBefore(s[..k], e, now)
    decreases k
  {
    if i < k {
      assert s[..k][..k - 1] == s[..k - 1];
      SumBeforeGrows(s, i, k - 1, e, now);
    }
  }

  /** An entry is removed exactly if it is old enough and removable and the removable old entries used
  before it do not bring the total within budget by themselves. */
  lemma {:induction false} RemovedIff(entries: seq<Entry>, now: int, budget: nat, e: Entry)
    requires DistinctPaths(entries) && e in entries
    ensures e in Removed(entries, now, budget) <==>
            Eligible(e, now) && SatSub(Total(entries), SumBefore(entries, e, now)) > budget
  {
    var s := Sort(entries);
    SortSorted(entries);
    SortMembers(entries);
    var k :| 0 <= k < |s| && s[k] == e;
    assert s[..0] == [] && s[..|s|] == s;
    EvictIff(s, 0, k, now, budget, Total(entries), Total(entries));
    SumBeforeSorted(s, k, |s|, now);
    SumBeforeSort(entries, e, now);
  }

  /** Nothing but entries is removed, never a young or future-dated one, and nothing if the total fits. */
  lemma {:induction false} OnlyOldEntriesGo(entries: seq<Entry>, now: int, budget: nat, e: Entry)
    requires e in Removed(entries, now, budget)
    ensures e in entries && e.modified + MIN_AGE <= now && Total(entries) > budget
  {
    var s := Sort(entries);
    EvictMembers(s, 0, now, budget, Total(entries), e);
    SortMembers(entries);
    assert s[0..] == s;
    EvictedAreOld(s, 0, now, budget, Total(entries), e);
  }

  lemma {:induction false} EvictedAreOld(s: seq<Entry>, i: nat, now: int, budget: nat, total: nat, e: Entry)
    requires i <= |s| && e in Evict(s, i, now, budget, total)
    ensures Eligible(e, now) && total > budget
    decreases |s| - i
  {
    if i < |s| && total > budget {
      if Eligible(s[i], now) {
        if e != s[i] {
          EvictedAreOld(s, i + 1, now, budget, SatSub(total, s[i].bytes), e);
        }
      } else {
        EvictedAreOld(s, i + 1, now, budget, total, e);
      }
    }
  }

  lemma {:induction false} SumPrefix(s: seq<Entry>, last: nat, n: nat)
    requires n <= last <= |s|
    ensures SumTo(s[..last], n) == SumTo(s, n)
    decreases n
  {
    if n > 0 {
      SumPrefix(s, last, n - 1);
    }
  }

  /** As long as the sizes do not overflow, the total is their sum. */
  lemma {:induction false} TotalIsSum(s: seq<Entry>)
    ensures Total(s) == if SumTo(s, |s|) <= MAX then SumTo(s, |s|) else MAX
    decreases |s|
  {
    if s != [] {
      var last := |s| - 1;
      SumPrefix(s, last, last);
      TotalIsSum(s[..last]);
    }
  }

  // ----- The procedure -----

  method Enforce(entries: seq<Entry>, now: int, budget: u64) returns (removed: seq<Entry>)
    ensures removed == Removed(entries, now, budget)
  {
    var total: u64 := 0;
    for i := 0 to |entries|
      invariant total == Total(entries[..i])
    {
      assert entries[..i + 1][..i] == entries[..i];
      total := SatAdd(total, entries[i].bytes);
    }
    assert entries[..|entries|] == entries;
    removed := [];
    if total <= budget {
      return;
    }
    var sorted := Sort(entries);
    for i := 0 to |sorted|
      invariant removed + Evict(sorted, i, now, budget, total) == Removed(entries, now, budget)
    {
      if total <= budget {
        break;
      }
      var entry := sorted[i];
      if now < entry.modified {
        continue;
      }
      var age := now - entry.modified;
      if age < MIN_AGE {
        continue;
      }
      if entry.removable {
        removed := removed + [entry];
        total := SatSub(total, entry.bytes);
      }
    }
  }
}
