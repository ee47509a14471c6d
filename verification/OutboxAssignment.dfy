/** How `assignment` in `pkg/outbox/storage.go` divides the shards among the live nodes. */
module OutboxAssignment {
  const SHARD_COUNT := 64

  // ---------------------------------------------------------------- the order of node names

  /** Go's order on strings. */
  predicate Less(a: string, b: string) {
    b != [] && (a == [] || a[0] < b[0] || (a[0] == b[0] && Less(a[1..], b[1..])))
  }

  lemma {:induction false} LessIsStrict(a: string, b: string)
    ensures !(Less(a, b) && Less(b, a)) && !Less(a, a)
  {
    if a != [] {
      LessIsStrict(a[1..], if b == [] then [] else b[1..]);
    }
  }

  lemma {:induction false} LessIsTotal(a: string, b: string)
    ensures a == b || Less(a, b) || Less(b, a)
  {
    if a != [] && b != [] && a[0] == b[0] {
      LessIsTotal(a[1..], b[1..]);
      assert a == [a[0]] + a[1..] && b == [b[0]] + b[1..];
    }
  }

  lemma {:induction false} LessIsTransitive(a: string, b: string, c: string)
    requires Less(a, b) && Less(b, c)
    ensures Less(a, c)
  {
    if a != [] && a[0] == b[0] == c[0] { LessIsTransitive(a[1..], b[1..], c[1..]); }
  }

  // ---------------------------------------------------------------- the rule

  /** How many members of a membership come before a name. */
  ghost function Position(live: set<string>, node: string): nat { |set m <- live | Less(m, node)| }

  /** The shards of a node under a membership. */
  ghost function Share(live: set<string>, node: string): set<int> {
    set s | 0 <= s < SHARD_COUNT && node in live && s % |live| == Position(live, node)
  }

  // ---------------------------------------------------------------- the algorithm

  function Rank(nodes: seq<string>, node: string): nat {
    if nodes == [] then 0 else (if Less(nodes[0], node) then 1 else 0) + Rank(nodes[1..], node)
  }

  function Insert(x: string, s: seq<string>): seq<string> {
    if s == [] || !Less(s[0], x) then [x] + s else [s[0]] + Insert(x, s[1..])
  }

  /** `sort.Strings` on a copy. */
  function Sort(nodes: seq<string>): seq<string> { if nodes == [] then [] else Insert(nodes[0], Sort(nodes[1..])) }

  ghost predicate Sorted(s: seq<string>) { forall i, j :: 0 <= i < j < |s| ==> !Less(s[j], s[i]) }

  lemma {:induction false} InsertFacts(x: string, s: seq<string>)
    ensures multiset(Insert(x, s)) == multiset(s) + multiset{x}
  {
    if s != [] {
      assert s == [s[0]] + s[1..];
      if Less(s[0], x) { InsertFacts(x, s[1..]); }
    }
  }

  lemma {:induction false} SortPermutes(nodes: seq<string>)
    ensures multiset(Sort(nodes)) == multiset(nodes)
  {
    if nodes != [] {
      SortPermutes(nodes[1..]);
      InsertFacts(nodes[0], Sort(nodes[1..]));
      assert nodes == [nodes[0]] + nodes[1..];
    }
  }

  lemma {:induction false} InsertRank(x: string, s: seq<string>, y: string)
    ensures Rank(Insert(x, s), y) == (if Less(x, y) then 1 else 0) + Rank(s, y)
  {
    if s == [] || !Less(s[0], x) {
      assert ([x] + s)[1..] == s;
    } else {
      InsertRank(x, s[1..], y);
      assert Insert(x, s)[1..] == Insert(x, s[1..]);
    }
  }

  lemma {:induction false} SortRank(nodes: seq<string>, y: string)
    ensures Rank(Sort(nodes), y) == Rank(nodes, y)
  {
    if nodes != [] {
      SortRank(nodes[1..], y);
      InsertRank(nodes[0], Sort(nodes[1..]), y);
    }
  }

  lemma NotLessTransitive(a: string, b: string, c: string)
    requires !Less(b, a) && !Less(c, b)
    ensures !Less(c, a)
  {
    if Less(c, a) {
      LessIsTotal(a, b);
      LessIsTotal(b, c);
      if a != b { LessIsTransitive(c, a, b); }
    }
  }

  ghost predicate Below(x: string, s: seq<string>) { forall i :: 0 <= i < |s| ==> !Less(s[i], x) }

  lemma SortedCons(x: string, s: seq<string>)
    requires Sorted(s) && Below(x, s)
    ensures Sorted([x] + s)
  {
  }

  lemma {:induction false} InsertSorts(x: string, s: seq<string>)
    requires Sorted(s)
    ensures Sorted(Insert(x, s))
    ensures forall y :: Below(y, s) && !Less(x, y) ==> Below(y, Insert(x, s))
  {
    if s == [] {
    } else if !Less(s[0], x) {
      forall i | 0 <= i < |s| ensures !Less(s[i], x) { if i > 0 { NotLessTransitive(x, s[0], s[i]); } }
      SortedCons(x, s);
    } else {
      InsertSorts(x, s[1..]);
      LessIsStrict(s[0], x);
      assert Below(s[0], s[1..]);
      SortedCons(s[0], Insert(x, s[1..]));
      forall y | Below(y, s) && !Less(x, y) ensures Below(y, Insert(x, s)) {
        assert Below(y, s[1..]) && !Less(s[0], y);
      }
    }
  }

  lemma {:induction false} SortSorts(nodes: seq<string>)
    ensures Sorted(Sort(nodes))
  {
    if nodes != [] {
      SortSorts(nodes[1..]);
      InsertSorts(nodes[0], Sort(nodes[1..]));
    }
  }

  /** `sort.SearchStrings`: the least index whose name is not below `x`. */
  method SearchStrings(s: seq<string>, x: string) returns (i: nat)
    requires Sorted(s)
    ensures i <= |s|
    ensures forall k :: 0 <= k < i ==> Less(s[k], x)
    ensures forall k :: i <= k < |s| ==> !Less(s[k], x)
  {
    i := 0;
    var j: nat := |s|;
    while i < j
      invariant i <= j <= |s|
      invariant forall k :: 0 <= k < i ==> Less(s[k], x)
      invariant forall k :: j <= k < |s| ==> !Less(s[k], x)
    {
      var h := (i + j) / 2;
      if Less(s[h], x) {
        forall k | 0 <= k < h ensures Less(s[k], x) { BelowLess(s[k], s[h], x); }
        i := h + 1;
      } else {
        forall k | h < k < |s| ensures !Less(s[k], x) { NotLessTransitive(x, s[h], s[k]); }
        j := h;
      }
    }
  }

  lemma BelowLess(a: string, b: string, x: string)
    requires !Less(b, a) && Less(b, x)
    ensures Less(a, x)
  {
    LessIsTotal(a, b);
    if a != b { LessIsTransitive(a, b, x); }
  }

  lemma {:induction false} RankAtSplit(s: seq<string>, x: string, i: nat)
    requires i <= |s| && (forall k :: 0 <= k < i ==> Less(s[k], x)) && (forall k :: i <= k < |s| ==> !Less(s[k], x))
    ensures Rank(s, x) == i
  {
    if s != [] { RankAtSplit(s[1..], x, if i == 0 then 0 else i - 1); }
  }

  /** Every n-th shard from `first` on. */
  function Stride(first: nat, n: nat): seq<int>
    requires n > 0
    decreases SHARD_COUNT - first
  {
    if first >= SHARD_COUNT then [] else [first] + Stride(first + n, n)
  }

  lemma StrideStep(shards: seq<int>, first: nat, n: nat)
    requires n > 0 && first < SHARD_COUNT
    ensures shards + Stride(first, n) == shards + [first] + Stride(first + n, n)
  {
    assert Stride(first, n) == [first] + Stride(first + n, n);
    hide Stride;
  }

  lemma SearchFinds(nodes: seq<string>, node: string, index: nat)
    requires index <= |Sort(nodes)|
    requires forall k :: 0 <= k < index ==> Less(Sort(nodes)[k], node)
    requires forall k :: index <= k < |Sort(nodes)| ==> !Less(Sort(nodes)[k], node)
    ensures index == Rank(nodes, node) && |Sort(nodes)| == |nodes|
    ensures node in nodes <==> index < |nodes| && Sort(nodes)[index] == node
  {
    hide Sort, Rank, Less;
    SortPermutes(nodes);
    SortSorts(nodes);
    SortRank(nodes, node);
    SameNames(Sort(nodes), nodes, node);
    RankAtSplit(Sort(nodes), node, index);
    FoundExactly(Sort(nodes), node, index);
  }

  method Assignment(nodes: seq<string>, node: string) returns (shards: seq<int>)
    ensures shards == if node in nodes then Stride(Rank(nodes, node), |nodes|) else []
  {
    hide Sort, Rank, Less, Stride;
    var sorted := Sort(nodes);
    SortSorts(nodes);
    var index := SearchStrings(sorted, node);
    SearchFinds(nodes, node, index);
    if index == |sorted| || sorted[index] != node { return []; }
    shards := [];
    var shard := index;
    assert [] + Stride(index, |nodes|) == Stride(index, |nodes|);
    while shard < SHARD_COUNT
      invariant shard >= 0 && shards + Stride(shard, |nodes|) == Stride(index, |nodes|)
      decreases SHARD_COUNT - shard
    {
      StrideStep(shards, shard, |nodes|);
      shards := shards + [shard];
      shard := shard + |sorted|;
    }
    StrideEnds(shard, |nodes|);
    assert shards + [] == shards;
  }

  lemma StrideEnds(first: nat, n: nat)
    requires n > 0 && first >= SHARD_COUNT
    ensures Stride(first, n) == []
  {
  }

  lemma SameNames(a: seq<string>, b: seq<string>, x: string)
    requires multiset(a) == multiset(b)
    ensures |a| == |b| && (x in a <==> x in b)
  {
    assert |a| == |multiset(a)| == |multiset(b)| == |b|;
    assert x in a <==> x in multiset(a);
    assert x in b <==> x in multiset(b);
  }

  lemma FoundExactly(s: seq<string>, x: string, i: nat)
    requires Sorted(s) && i <= |s| && (forall k :: 0 <= k < i ==> Less(s[k], x)) && (forall k :: i <= k < |s| ==> !Less(s[k], x))
    ensures x in s <==> i < |s| && s[i] == x
  {
    if x in s {
      var j :| 0 <= j < |s| && s[j] == x;
      LessIsStrict(x, x);
      LessIsTotal(s[i], x);
    }
  }

  // ---------------------------------------------------------------- the algorithm follows the rule

  ghost predicate Distinct(nodes: seq<string>) { forall i, j :: 0 <= i < j < |nodes| ==> nodes[i] != nodes[j] }

  ghost function Names(nodes: seq<string>): set<string> { set n <- nodes }

  lemma PositionWithOneMore(live: set<string>, first: string, x: string)
    requires first !in live
    ensures Position(live + {first}, x) == Position(live, x) + if Less(first, x) then 1 else 0
  {
    var before := set m <- live | Less(m, x);
    assert (set m <- live + {first} | Less(m, x)) == if Less(first, x) then before + {first} else before;
  }

  lemma {:induction false} RankIsPosition(nodes: seq<string>, x: string)
    requires Distinct(nodes)
    ensures Rank(nodes, x) == Position(Names(nodes), x) && |Names(nodes)| == |nodes|
  {
    if nodes != [] {
      var first, rest := nodes[0], nodes[1..];
      RankIsPosition(rest, x);
      assert first !in Names(rest) && Names(nodes) == Names(rest) + {first};
      PositionWithOneMore(Names(rest), first, x);
      hide Less, Position;
    }
  }

  lemma {:induction false} StrideIsModulo(first: nat, n: nat, r: nat, s: int)
    requires n > 0 && r < n && first % n == r
    ensures s in Stride(first, n) <==> first <= s < SHARD_COUNT && s % n == r
    decreases SHARD_COUNT - first
  {
    if first < SHARD_COUNT {
      Periodic(first, n);
      StrideIsModulo(first + n, n, r, s);
      if first < s < first + n { NoneBetween(first, n, s); }
    }
  }

  lemma {:induction false} Multiples(n: nat, x: int, y: int)
    ensures x < y ==> n * x + n <= n * y
    decreases y - x
  {
    if x + 1 < y {
      Multiples(n, x, y - 1);
      assert n * y == n * (y - 1) + n;
    } else if x + 1 == y {
      assert n * y == n * x + n;
    }
  }

  lemma Unique(a: nat, n: nat, q: nat, r: nat)
    requires n > 0 && a == n * q + r && r < n
    ensures a % n == r
  {
    Multiples(n, a / n, q);
    Multiples(n, q, a / n);
    assert a == n * (a / n) + a % n;
  }

  lemma Periodic(a: nat, n: nat)
    requires n > 0
    ensures (a + n) % n == a % n
  {
    var q := a / n;
    assert n * (q + 1) == n * q + n;
    Unique(a + n, n, q + 1, a % n);
  }

  lemma NoneBetween(a: nat, n: nat, s: nat)
    requires n > 0 && a < s < a + n
    ensures s % n != a % n
  {
    Multiples(n, a / n, s / n);
    Multiples(n, s / n, a / n);
    assert a == n * (a / n) + a % n && s == n * (s / n) + s % n;
  }

  /** `assignment` gives a node exactly its share of the membership, in whatever order the membership is
      listed. */
  lemma AssignmentIsShare(nodes: seq<string>, node: string, s: int)
    requires Distinct(nodes) && node in nodes
    ensures s in Stride(Rank(nodes, node), |nodes|) <==> s in Share(Names(nodes), node)
  {
    RankIsPosition(nodes, node);
    PositionBelow(Names(nodes), node);
    var r, n := Rank(nodes, node), |nodes|;
    Unique(r, n, 0, r);
    StrideIsModulo(r, n, r, s);
    assert node in Names(nodes);
    if 0 <= s < r { Unique(s, n, 0, s); }
  }

  lemma PositionBelow(live: set<string>, node: string)
    requires node in live
    ensures Position(live, node) < |live|
  {
    var before := set m <- live | Less(m, node);
    LessIsStrict(node, node);
    assert before <= live - {node};
    SubsetSize(before, live - {node});
  }

  lemma {:induction false} SubsetSize<T>(a: set<T>, b: set<T>)
    requires a <= b
    ensures |a| <= |b| && (a != b ==> |a| < |b|)
  {
    if a != {} {
      var x :| x in a;
      SubsetSize(a - {x}, b - {x});
      assert a != b ==> a - {x} != b - {x};
    }
  }

  // ---------------------------------------------------------------- the split is exact and even

  lemma PositionsDiffer(live: set<string>, a: string, b: string)
    requires a in live && b in live && Less(a, b)
    ensures Position(live, a) < Position(live, b)
  {
    var beforeA, beforeB := set m <- live | Less(m, a), set m <- live | Less(m, b);
    forall m | m in beforeA ensures m in beforeB { LessIsTransitive(m, a, b); }
    LessIsStrict(a, a);
    assert a in beforeB && a !in beforeA;
    SubsetSize(beforeA, beforeB);
  }

  lemma {:induction false} Listing(live: set<string>) returns (nodes: seq<string>)
    ensures Distinct(nodes) && Names(nodes) == live
  {
    if live == {} {
      nodes := [];
    } else {
      var x :| x in live;
      var rest := Listing(live - {x});
      nodes := [x] + rest;
      assert forall i :: 0 <= i < |rest| ==> rest[i] in Names(rest);
      assert Names(nodes) == Names(rest) + {x};
    }
  }

  /** Two equal entries would be counted twice. */
  lemma DistinctIsPermuted(a: seq<string>, b: seq<string>)
    requires Distinct(a) && multiset(a) == multiset(b)
    ensures Distinct(b)
  {
    if i, j :| 0 <= i < j < |b| && b[i] == b[j] {
      var x := b[i];
      TwiceCounted(b, i, j);
      assert multiset(a)[x] >= 2;
      OnceCounted(a, x);
    }
  }

  lemma TwiceCounted(b: seq<string>, i: nat, j: nat)
    requires i < j < |b| && b[i] == b[j]
    ensures multiset(b)[b[i]] >= 2
  {
    assert b == b[..j] + b[j..];
    assert multiset(b) == multiset(b[..j]) + multiset(b[j..]);
    assert b[..j][i] == b[i] && b[j..][0] == b[j];
    assert b[i] in multiset(b[..j]) && b[i] in multiset(b[j..]);
  }

  lemma {:induction false} OnceCounted(a: seq<string>, x: string)
    requires Distinct(a)
    ensures multiset(a)[x] <= 1
  {
    if a != [] {
      assert a == [a[0]] + a[1..];
      OnceCounted(a[1..], x);
      if x == a[0] { assert x !in a[1..]; assert x !in multiset(a[1..]); }
    }
  }

  /** Every position below the number of nodes is taken. */
  lemma PositionsAreTaken(live: set<string>, r: nat) returns (node: string)
    requires r < |live|
    ensures node in live && Position(live, node) == r
  {
    var nodes := Listing(live);
    RankIsPosition(nodes, "");
    var sorted := Sort(nodes);
    SortPermutes(nodes);
    SortSorts(nodes);
    SameNames(sorted, nodes, "");
    DistinctIsPermuted(nodes, sorted);
    node := sorted[r];
    SameNames(sorted, nodes, node);
    forall k | 0 <= k < r ensures Less(sorted[k], node) { LessIsTotal(sorted[k], node); }
    forall k | r <= k < |sorted| ensures !Less(sorted[k], node) { LessIsStrict(node, node); }
    RankAtSplit(sorted, node, r);
    SortRank(nodes, node);
    RankIsPosition(nodes, node);
  }

  /** The shares split the shards exactly: every shard has one owner among the live nodes, and only one. */
  lemma SharesSplitExactly(live: set<string>, s: int) returns (owner: string)
    requires live != {} && 0 <= s < SHARD_COUNT
    ensures owner in live && s in Share(live, owner)
    ensures forall n <- live :: s in Share(live, n) ==> n == owner
  {
    owner := PositionsAreTaken(live, s % |live|);
    forall n | n in live && s in Share(live, n) ensures n == owner {
      LessIsTotal(n, owner);
      if Less(n, owner) { PositionsDiffer(live, n, owner); }
      if Less(owner, n) { PositionsDiffer(live, owner, n); }
    }
  }

  /** The members of 0..limit that leave remainder r. */
  ghost function Residues(limit: nat, n: nat, r: nat): set<int>
    requires n > 0
  {
    set s | 0 <= s < limit && s % n == r
  }

  lemma ResiduesStep(last: nat, n: nat, r: nat)
    requires n > 0
    ensures |Residues(last + 1, n, r)| == |Residues(last, n, r)| + if last % n == r then 1 else 0
  {
    assert Residues(last + 1, n, r) == Residues(last, n, r) + if last % n == r then {last} else {};
  }

  lemma {:induction false} ResiduesCount(limit: nat, n: nat, k: nat, j: nat, r: nat)
    requires r < n && j < n && limit == n * k + j
    ensures |Residues(limit, n, r)| == k + if r < j then 1 else 0
    decreases k, j
  {
    if j > 0 {
      ResiduesCount(limit - 1, n, k, j - 1, r);
      Unique(limit - 1, n, k, j - 1);
      ResiduesStep(limit - 1, n, r);
    } else if k > 0 {
      Multiples(n, k - 1, k);
      assert n * k == n * (k - 1) + n;
      ResiduesCount(limit - 1, n, k - 1, n - 1, r);
      Unique(limit - 1, n, k - 1, n - 1);
      ResiduesStep(limit - 1, n, r);
    } else {
      assert limit == 0;
      assert Residues(0, n, r) == {};
    }
  }

  /** Shares differ in size by at most one shard. */
  lemma SharesAreEven(live: set<string>, a: string, b: string)
    requires a in live && b in live
    ensures |Share(live, a)| <= |Share(live, b)| + 1
  {
    var n := |live|;
    PositionBelow(live, a);
    PositionBelow(live, b);
    var p, q := Position(live, a), Position(live, b);
    var k, j := SHARD_COUNT / n, SHARD_COUNT % n;
    assert SHARD_COUNT == n * k + j;
    assert Share(live, a) == Residues(SHARD_COUNT, n, p) && Share(live, b) == Residues(SHARD_COUNT, n, q);
    ResiduesCount(SHARD_COUNT, n, k, j, p);
    ResiduesCount(SHARD_COUNT, n, k, j, q);
  }
}
