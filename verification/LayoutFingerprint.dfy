/** The worklist over a possibly cyclic layout graph, and the byte stream its descriptions are hashed as. */
module LayoutFingerprint {
  import opened ByteStrings
  import opened Sorting

  /** A type layout: the compiler's id of its type, its description, and the positions of the layouts it refers to. */
  datatype Layout = Layout(typeId: nat, description: Bytes, nested: seq<nat>)

  type Graph = seq<Layout>

  const NEWLINE: Byte := 10

  predicate Closed(g: Graph) {
    forall n, m :: 0 <= n < |g| && m in g[n].nested ==> m < |g|
  }

  ghost predicate Alike(g: Graph, a: nat, b: nat)
    requires Closed(g) && a < |g| && b < |g|
  {
    && g[a].description == g[b].description
    && forall m :: m in g[a].nested ==> IdAmong(g, g[m].typeId, g[b].nested)
  }

  ghost predicate IdAmong(g: Graph, id: nat, nodes: seq<nat>) {
    exists m :: m in nodes && m < |g| && g[m].typeId == id
  }

  // ---- Reachability

  ghost predicate IsPath(g: Graph, p: seq<nat>) {
    && p != []
    && (forall k :: 0 <= k < |p| ==> p[k] < |g|)
    && (forall k :: 0 < k < |p| ==> p[k] in g[p[k - 1]].nested)
  }

  ghost predicate Reaches(g: Graph, root: nat, n: nat) {
    n < |g| && exists p :: IsPath(g, p) && p[0] == root && p[|p| - 1] == n
  }

  ghost predicate DescribedFrom(g: Graph, root: nat, d: Bytes) {
    exists n: nat :: Reaches(g, root, n) && g[n].description == d
  }

  /** Among the layouts reachable from `root`, equal type ids mean equal layouts, compared one level deep. */
  ghost predicate Coherent(g: Graph, root: nat)
    requires Closed(g)
  {
    forall a: nat, b: nat :: Reaches(g, root, a) && Reaches(g, root, b) && g[a].typeId == g[b].typeId ==> Alike(g, a, b)
  }

  lemma ReachesRoot(g: Graph, root: nat)
    requires root < |g|
    ensures Reaches(g, root, root)
  {
    var p := [root];
    assert IsPath(g, p) && p[0] == root && p[|p| - 1] == root;
  }

  lemma ReachesNested(g: Graph, root: nat, n: nat, m: nat)
    requires Closed(g) && Reaches(g, root, n) && n < |g| && m in g[n].nested
    ensures Reaches(g, root, m)
  {
    var p :| IsPath(g, p) && p[0] == root && p[|p| - 1] == n;
    var q := p + [m];
    assert forall k :: 0 <= k < |p| ==> q[k] == p[k];
    assert IsPath(g, q) && q[0] == root && q[|q| - 1] == m;
  }

  // ---- One visit of the worklist

  datatype Walk = Walk(seen: set<nat>, todo: seq<nat>, described: seq<Bytes>)

  ghost predicate Ascending(s: seq<Bytes>) {
    SortedBy(LexLe, s) && NoDuplicates(s)
  }

  /** Inserting into an ordered set. */
  function OrderedInsert(x: Bytes, s: seq<Bytes>): seq<Bytes> {
    if x in s then s else Insert(LexLe, x, s)
  }

  lemma OrderedInsertKeeps(x: Bytes, s: seq<Bytes>)
    requires Ascending(s)
    ensures Ascending(OrderedInsert(x, s))
    ensures forall d :: d in OrderedInsert(x, s) <==> d in s || d == x
  {
    if x !in s {
      LexOrder();
      InsertSorts(LexLe, x, s);
      var r := Insert(LexLe, x, s);
      SameMembers(r, s + [x]);
      DistinctMultiset(s);
      forall i, j | 0 <= i < j < |r|
        ensures r[i] != r[j]
      {
        TwiceCounted(r, i, j);
        CountDistinct(s, r[i]);
      }
    }
  }

  lemma TwiceCounted<T>(s: seq<T>, i: nat, j: nat)
    requires i < j < |s|
    ensures s[i] == s[j] ==> multiset(s)[s[i]] >= 2
  {
    assert s == s[..j] + s[j..];
    assert s[..j][i] == s[i] && s[j..][0] == s[j];
    assert s[i] in multiset(s[..j]) && s[j] in multiset(s[j..]);
  }

  /** The layout `l` of the worklist is dealt with; the worklist may be a stack, a queue or anything else. */
  ghost predicate IsVisit(g: Graph, v: Walk, l: nat, w: Walk) {
    && l in v.todo && l < |g|
    && (forall x :: x in v.todo && x != l ==> x in w.todo)
    && if g[l].typeId in v.seen then
         (forall x :: x in w.todo ==> x in v.todo) && w.seen == v.seen && w.described == v.described
       else
         && (forall x :: x in w.todo ==> x in v.todo || x in g[l].nested)
         && (forall x :: x in g[l].nested ==> x in w.todo)
         && w.seen == v.seen + {g[l].typeId}
         && w.described == OrderedInsert(g[l].description, v.described)
  }

  ghost predicate Pending(g: Graph, w: Walk, id: nat) {
    id in w.seen || IdAmong(g, id, w.todo)
  }

  /** The layout `n` is described and everything it refers to is on its way. */
  ghost predicate Done(g: Graph, w: Walk, n: nat)
    requires n < |g|
  {
    && g[n].description in w.described
    && forall m :: m in g[n].nested && m < |g| ==> Pending(g, w, g[m].typeId)
  }

  ghost predicate WalkInv(g: Graph, root: nat, w: Walk) {
    && root < |g|
    && (forall n :: n in w.todo ==> Reaches(g, root, n))
    && (forall d :: d in w.described ==> DescribedFrom(g, root, d))
    && (forall n: nat :: Reaches(g, root, n) && g[n].typeId in w.seen ==> Done(g, w, n))
    && Pending(g, w, g[root].typeId)
    && Ascending(w.described)
  }

  lemma StartInv(g: Graph, root: nat)
    requires root < |g|
    ensures WalkInv(g, root, Walk({}, [root], []))
  {
    ReachesRoot(g, root);
    assert root in [root];
  }

  /** What was pending stays pending. */
  lemma VisitPending(g: Graph, v: Walk, l: nat, w: Walk, id: nat)
    requires IsVisit(g, v, l, w) && Pending(g, v, id)
    ensures Pending(g, w, id)
  {
    if id !in v.seen {
      var m :| m in v.todo && m < |g| && g[m].typeId == id;
      if m != l { assert m in w.todo; }
    }
  }

  lemma DoneStays(g: Graph, v: Walk, l: nat, w: Walk, n: nat)
    requires IsVisit(g, v, l, w) && Ascending(v.described) && n < |g| && Done(g, v, n)
    ensures Done(g, w, n)
  {
    OrderedInsertKeeps(g[l].description, v.described);
    forall m | m in g[n].nested && m < |g|
      ensures Pending(g, w, g[m].typeId)
    {
      VisitPending(g, v, l, w, g[m].typeId);
    }
  }

  /** The first layout of its id deals with all layouts of that id. */
  lemma FirstVisitDone(g: Graph, v: Walk, l: nat, w: Walk, n: nat)
    requires Closed(g) && Ascending(v.described) && IsVisit(g, v, l, w) && g[l].typeId !in v.seen
    requires n < |g| && Alike(g, n, l)
    ensures Done(g, w, n)
  {
    OrderedInsertKeeps(g[l].description, v.described);
    forall m | m in g[n].nested && m < |g|
      ensures Pending(g, w, g[m].typeId)
    {
      var k :| k in g[l].nested && k < |g| && g[k].typeId == g[m].typeId;
      assert k in w.todo;
    }
  }

  lemma VisitReaches(g: Graph, root: nat, v: Walk, l: nat, w: Walk)
    requires Closed(g) && IsVisit(g, v, l, w) && forall n :: n in v.todo ==> Reaches(g, root, n)
    ensures forall n :: n in w.todo ==> Reaches(g, root, n)
  {
    forall n | n in w.todo
      ensures Reaches(g, root, n)
    {
      if n !in v.todo { ReachesNested(g, root, l, n); }
    }
  }

  lemma VisitKeeps(g: Graph, root: nat, v: Walk, l: nat, w: Walk)
    requires Closed(g) && Coherent(g, root) && WalkInv(g, root, v) && IsVisit(g, v, l, w)
    ensures WalkInv(g, root, w)
  {
    VisitPending(g, v, l, w, g[root].typeId);
    VisitReaches(g, root, v, l, w);
    OrderedInsertKeeps(g[l].description, v.described);
    assert DescribedFrom(g, root, g[l].description);
    forall n: nat | Reaches(g, root, n) && g[n].typeId in w.seen
      ensures Done(g, w, n)
    {
      if g[n].typeId in v.seen {
        DoneStays(g, v, l, w, n);
      } else {
        FirstVisitDone(g, v, l, w, n);
      }
    }
  }

  /** Once the worklist is empty, every reachable layout has been seen. */
  lemma {:induction false} FinishedSeesPath(g: Graph, root: nat, w: Walk, p: seq<nat>)
    requires WalkInv(g, root, w) && w.todo == [] && IsPath(g, p) && p[0] == root
    ensures g[p[|p| - 1]].typeId in w.seen
    decreases |p|
  {
    if |p| > 1 {
      var q := p[..|p| - 1];
      var n, m := q[|q| - 1], p[|p| - 1];
      FinishedSeesPath(g, root, w, q);
      assert Reaches(g, root, n);
      assert m in g[n].nested;
      assert Done(g, w, n);
      assert Pending(g, w, g[m].typeId);
    }
  }

  lemma FinishedDescribes(g: Graph, root: nat, w: Walk)
    requires WalkInv(g, root, w) && w.todo == []
    ensures forall d :: d in w.described <==> DescribedFrom(g, root, d)
  {
    forall d | DescribedFrom(g, root, d)
      ensures d in w.described
    {
      var n: nat :| Reaches(g, root, n) && g[n].description == d;
      var p :| IsPath(g, p) && p[0] == root && p[|p| - 1] == n;
      FinishedSeesPath(g, root, w, p);
    }
  }

  // ---- The stream

  function Lines(s: seq<Bytes>): Bytes {
    if s == [] then [] else Lines(s[..|s| - 1]) + s[|s| - 1] + [NEWLINE]
  }

  /** One line each, in order: a description, then a newline. */
  lemma {:induction false} LinesWritten(a: seq<Bytes>, d: Bytes, b: seq<Bytes>)
    ensures Lines(a + ([d] + b)) == Lines(a) + ((d + [10]) + Lines(b))
    ensures Lines([]) == []
    decreases |b|
  {
    var s := a + ([d] + b);
    if b == [] {
      assert s[..|s| - 1] == a;
    } else {
      var front, last := b[..|b| - 1], b[|b| - 1];
      assert s[..|s| - 1] == a + ([d] + front) && s[|s| - 1] == last;
      LinesWritten(a, d, front);
      LineBehind(Lines(a), d + [10], Lines(front), last);
    }
  }

  lemma LineBehind(a: Bytes, d: Bytes, front: Bytes, last: Bytes)
    ensures (a + (d + front)) + last + [NEWLINE] == a + (d + (front + last + [NEWLINE]))
  {
  }

  /** `stream` is the ascending list of the descriptions reachable from `root`, one line each. */
  ghost predicate IsStream(g: Graph, root: nat, stream: Bytes) {
    exists s :: Ascending(s) && (forall d :: d in s <==> DescribedFrom(g, root, d)) && stream == Lines(s)
  }

  predicate InGraph(g: Graph, nodes: seq<nat>) {
    forall k :: 0 <= k < |nodes| ==> nodes[k] < |g|
  }

  /** Popping the last layout and pushing what it refers to. */
  function StackStep(g: Graph, v: Walk): Walk
    requires v.todo != [] && InGraph(g, v.todo)
  {
    var l, rest := v.todo[|v.todo| - 1], v.todo[..|v.todo| - 1];
    if g[l].typeId in v.seen then Walk(v.seen, rest, v.described)
    else Walk(v.seen + {g[l].typeId}, rest + g[l].nested, OrderedInsert(g[l].description, v.described))
  }

  lemma StackInGraph(g: Graph, v: Walk)
    requires Closed(g) && v.todo != [] && InGraph(g, v.todo)
    ensures InGraph(g, StackStep(g, v).todo)
  {
    var l, todo := v.todo[|v.todo| - 1], StackStep(g, v).todo;
    forall k | 0 <= k < |todo|
      ensures todo[k] < |g|
    {
      if k >= |v.todo| - 1 { assert todo[k] in g[l].nested; }
    }
  }

  lemma StackVisit(g: Graph, v: Walk)
    requires v.todo != [] && InGraph(g, v.todo)
    ensures IsVisit(g, v, v.todo[|v.todo| - 1], StackStep(g, v))
  {
    FrontMembers(v.todo);
  }

  /** A walk from the root, one visit after the other. */
  ghost predicate IsWalk(g: Graph, root: nat, run: seq<Walk>) {
    && run != [] && run[0] == Walk({}, [root], [])
    && (forall i :: 0 < i < |run| ==> Visits(g, run[i - 1], run[i]))
  }

  ghost predicate IsTraversal(g: Graph, root: nat, run: seq<Walk>) {
    IsWalk(g, root, run) && run[|run| - 1].todo == []
  }

  ghost predicate Visits(g: Graph, v: Walk, w: Walk) {
    exists l :: IsVisit(g, v, l, w)
  }

  /** However the next layout is picked and wherever its nested layouts are put, the hashed stream is the same. */
  lemma {:induction false} AnyTraversal(g: Graph, root: nat, run: seq<Walk>)
    requires Closed(g) && Coherent(g, root) && root < |g| && IsTraversal(g, root, run)
    ensures IsStream(g, root, Lines(run[|run| - 1].described))
  {
    StartInv(g, root);
    var i := 0;
    while i < |run| - 1
      invariant 0 <= i < |run| && WalkInv(g, root, run[i])
    {
      var v, next := run[i], i + 1;
      var w := run[next];
      assert Visits(g, run[next - 1], w);
      var l :| IsVisit(g, v, l, w);
      VisitKeeps(g, root, v, l, w);
      i := next;
    }
    FinishedDescribes(g, root, run[i]);
  }

  lemma WalkGoesOn(g: Graph, root: nat, run: seq<Walk>, l: nat, w: Walk)
    requires IsWalk(g, root, run) && IsVisit(g, run[|run| - 1], l, w)
    ensures IsWalk(g, root, run + [w])
  {
    var longer := run + [w];
    assert Visits(g, run[|run| - 1], w);
    forall i | 0 < i < |longer|
      ensures Visits(g, longer[i - 1], longer[i])
    {
      if i < |run| { assert Visits(g, run[i - 1], run[i]); }
    }
  }

  /** The worklist loop and the hashing loop; the result is what is fed to the digest. */
  method HashedStream(g: Graph, root: nat) returns (stream: Bytes)
    requires Closed(g) && root < |g|
    ensures exists run: seq<Walk> :: IsTraversal(g, root, run) && stream == Lines(run[|run| - 1].described)
    ensures Coherent(g, root) ==> IsStream(g, root, stream)
  {
    var seen: set<nat>, todo: seq<nat>, described: seq<Bytes> := {}, [root], [];
    ghost var ids := set n | 0 <= n < |g| :: g[n].typeId;
    ghost var run := [Walk(seen, todo, described)];
    while todo != []
      invariant InGraph(g, todo)
      invariant seen <= ids
      invariant IsWalk(g, root, run) && run[|run| - 1] == Walk(seen, todo, described)
      decreases |ids - seen|, |todo|
    {
      ghost var before := Walk(seen, todo, described);
      var l := todo[|todo| - 1];
      todo := todo[..|todo| - 1];
      if g[l].typeId !in seen {
        FewerLeft(ids, seen, g[l].typeId);
        seen := seen + {g[l].typeId};
        described := OrderedInsert(g[l].description, described);
        todo := todo + g[l].nested;
      }
      ghost var after := Walk(seen, todo, described);
      assert after == StackStep(g, before);
      StackInGraph(g, before);
      StackVisit(g, before);
      WalkGoesOn(g, root, run, l, after);
      run := run + [after];
    }
    stream := HashLines(described);
    assert IsTraversal(g, root, run);
    if Coherent(g, root) { AnyTraversal(g, root, run); }
  }

  method HashLines(described: seq<Bytes>) returns (stream: Bytes)
    ensures stream == Lines(described)
  {
    stream := [];
    for i := 0 to |described|
      invariant stream == Lines(described[..i])
    {
      stream := stream + described[i] + [NEWLINE];
      assert described[..i + 1][..i] == described[..i];
    }
    assert described[..|described|] == described;
  }

  lemma FrontMembers(s: seq<nat>)
    requires s != []
    ensures forall x :: x in s <==> x in s[..|s| - 1] || x == s[|s| - 1]
  {
    assert s == s[..|s| - 1] + [s[|s| - 1]];
  }

  lemma FewerLeft(ids: set<nat>, seen: set<nat>, id: nat)
    requires id in ids && id !in seen
    ensures |ids - (seen + {id})| < |ids - seen|
  {
    assert ids - seen == (ids - (seen + {id})) + {id};
  }

  // ---- Independence of the order

  /** The stream is determined by the graph. */
  lemma StreamUnique(g: Graph, root: nat, a: Bytes, b: Bytes)
    requires IsStream(g, root, a) && IsStream(g, root, b)
    ensures a == b
  {
    var s :| Ascending(s) && (forall d :: d in s <==> DescribedFrom(g, root, d)) && a == Lines(s);
    var t :| Ascending(t) && (forall d :: d in t <==> DescribedFrom(g, root, d)) && b == Lines(t);
    LexOrder();
    SortedSetUnique(LexLe, s, t);
  }

  /** `r` matches layouts of two graphs that read alike, however numbered, ordered or repeated. */
  ghost predicate Matches(g: Graph, h: Graph, r: set<(nat, nat)>) {
    forall a, b :: (a, b) in r ==>
      && a < |g| && b < |h| && g[a].description == h[b].description
      && (forall m :: m in g[a].nested ==> exists k :: k in h[b].nested && (m, k) in r)
  }

  function Flip(r: set<(nat, nat)>): set<(nat, nat)> {
    set p | p in r :: (p.1, p.0)
  }

  lemma {:induction false} MatchPath(g: Graph, h: Graph, r: set<(nat, nat)>, root: nat, other: nat, p: seq<nat>)
      returns (n: nat)
    requires Closed(h) && Matches(g, h, r) && (root, other) in r && IsPath(g, p) && p[0] == root
    ensures (p[|p| - 1], n) in r && Reaches(h, other, n)
    decreases |p|
  {
    if |p| == 1 {
      n := other;
      ReachesRoot(h, other);
    } else {
      var q := p[..|p| - 1];
      var before := MatchPath(g, h, r, root, other, q);
      assert p[|p| - 1] in g[q[|q| - 1]].nested;
      n :| n in h[before].nested && (p[|p| - 1], n) in r;
      ReachesNested(h, other, before, n);
    }
  }

  lemma MatchedDescriptions(g: Graph, h: Graph, r: set<(nat, nat)>, root: nat, other: nat, d: Bytes)
    requires Closed(h) && Matches(g, h, r) && (root, other) in r && DescribedFrom(g, root, d)
    ensures DescribedFrom(h, other, d)
  {
    var n: nat :| Reaches(g, root, n) && g[n].description == d;
    var p :| IsPath(g, p) && p[0] == root && p[|p| - 1] == n;
    var k := MatchPath(g, h, r, root, other, p);
  }

  /** Two builds whose layouts read alike hash the same stream: type ids, numbering and nesting order do not matter. */
  lemma SameLayoutsSameStream(g: Graph, h: Graph, r: set<(nat, nat)>, root: nat, other: nat, a: Bytes, b: Bytes)
    requires Closed(g) && Closed(h) && Matches(g, h, r) && Matches(h, g, Flip(r)) && (root, other) in r
    requires IsStream(g, root, a) && IsStream(h, other, b)
    ensures a == b
  {
    forall d
      ensures DescribedFrom(g, root, d) <==> DescribedFrom(h, other, d)
    {
      assert (other, root) in Flip(r);
      if DescribedFrom(g, root, d) { MatchedDescriptions(g, h, r, root, other, d); }
      if DescribedFrom(h, other, d) { MatchedDescriptions(h, g, Flip(r), other, root, d); }
    }
    assert IsStream(h, other, a);
    StreamUnique(h, other, a, b);
  }

  // ---- Injectivity

  lemma {:induction false} LinesInjective(a: seq<Bytes>, b: seq<Bytes>)
    requires (forall d :: d in a ==> NEWLINE !in d) && (forall d :: d in b ==> NEWLINE !in d)
    requires Lines(a) == Lines(b)
    ensures a == b
    decreases |a|
  {
    if a != [] && b != [] {
      var x, y := a[|a| - 1], b[|b| - 1];
      assert x in a && y in b;
      LastLine(Lines(a[..|a| - 1]), x, Lines(b[..|b| - 1]), y);
      LinesEnd(a[..|a| - 1]);
      LinesEnd(b[..|b| - 1]);
      TailAfterNewline(Lines(a[..|a| - 1]), x, Lines(b[..|b| - 1]), y);
      LinesInjective(a[..|a| - 1], b[..|b| - 1]);
      assert a == a[..|a| - 1] + [x] && b == b[..|b| - 1] + [y];
    }
  }

  lemma LinesEnd(s: seq<Bytes>)
    ensures Lines(s) == [] || Lines(s)[|Lines(s)| - 1] == NEWLINE
  {
  }

  lemma LastLine(p: Bytes, x: Bytes, q: Bytes, y: Bytes)
    requires p + x + [NEWLINE] == q + y + [NEWLINE]
    ensures p + x == q + y
  {
    assert p + x == (p + x + [NEWLINE])[..|p + x|];
    assert q + y == (q + y + [NEWLINE])[..|q + y|];
  }

  lemma TailAfterNewline(p: Bytes, x: Bytes, q: Bytes, y: Bytes)
    requires p + x == q + y && NEWLINE !in x && NEWLINE !in y
    requires (p == [] || p[|p| - 1] == NEWLINE) && (q == [] || q[|q| - 1] == NEWLINE)
    ensures p == q && x == y
  {
    NewlineBefore(p, x, q, y);
    NewlineBefore(q, y, p, x);
    var s := p + x;
    assert p == s[..|p|] && q == s[..|q|] && x == s[|p|..] && y == s[|q|..];
  }

  lemma NewlineBefore(p: Bytes, x: Bytes, q: Bytes, y: Bytes)
    requires p + x == q + y && NEWLINE !in x
    requires q == [] || q[|q| - 1] == NEWLINE
    ensures |q| <= |p|
  {
    var s := p + x;
    assert forall k :: |p| <= k < |s| ==> s[k] in x;
    var last := |q| - 1;
    assert q != [] ==> s[last] == NEWLINE;
  }

  ghost predicate OneLine(g: Graph) {
    forall n :: 0 <= n < |g| ==> NEWLINE !in g[n].description
  }

  /** With one-line descriptions, equal streams mean equal sets of reachable descriptions. */
  lemma StreamsEqualIff(g: Graph, h: Graph, root: nat, other: nat, a: Bytes, b: Bytes)
    requires OneLine(g) && OneLine(h) && IsStream(g, root, a) && IsStream(h, other, b)
    ensures a == b <==> forall d :: DescribedFrom(g, root, d) <==> DescribedFrom(h, other, d)
  {
    var s :| Ascending(s) && (forall d :: d in s <==> DescribedFrom(g, root, d)) && a == Lines(s);
    var t :| Ascending(t) && (forall d :: d in t <==> DescribedFrom(h, other, d)) && b == Lines(t);
    if a == b {
      LinesInjective(s, t);
      assert forall d :: DescribedFrom(g, root, d) <==> d in s;
    } else if forall d :: DescribedFrom(g, root, d) <==> DescribedFrom(h, other, d) {
      LexOrder();
      SortedSetUnique(LexLe, s, t);
    }
  }

  // ---- Why equal ids must mean equal layouts

  const CLASH: Graph := [Layout(0, [97], [1, 2]), Layout(1, [98], []), Layout(1, [99], [])]

  lemma InsertLast(x: Byte)
    requires x > 97
    ensures OrderedInsert([x], [[97]]) == [[97], [x]]
    ensures Lines([[97], [x]]) == [97, 10, x, 10]
  {
    var rest := [[97]][1..];
    assert rest == [] && Insert(LexLe, [x], rest) == [[x]];
    var s := [[97], [x]];
    assert s[..1] == [[97]] && [[97]][..0] == [];
    assert Lines([[97]]) == [97, 10];
  }

  lemma ClashVisits(first: nat, second: nat, lines: seq<Bytes>)
    requires (first, second) in {(1, 2), (2, 1)} && lines == [[97], [97 + first]]
    ensures IsVisit(CLASH, Walk({}, [0], []), 0, Walk({0}, [1, 2], [[97]]))
    ensures IsVisit(CLASH, Walk({0}, [1, 2], [[97]]), first, Walk({0, 1}, [second], lines))
    ensures IsVisit(CLASH, Walk({0, 1}, [second], lines), second, Walk({0, 1}, [], lines))
  {
    InsertLast(97 + first);
    assert CLASH[first].description == [97 + first];
  }

  /** With `1` and `2` clashing, the one that is visited first is described. */
  lemma ClashRun(first: nat, second: nat) returns (run: seq<Walk>)
    requires (first, second) in {(1, 2), (2, 1)}
    ensures IsTraversal(CLASH, 0, run)
    ensures Lines(run[|run| - 1].described) == [97, 10, 97 + first, 10]
  {
    var lines := [[97], [97 + first]];
    InsertLast(97 + first);
    ClashVisits(first, second, lines);
    var v0, v1 := Walk({}, [0], []), Walk({0}, [1, 2], [[97]]);
    var v2, v3 := Walk({0, 1}, [second], lines), Walk({0, 1}, [], lines);
    assert Visits(CLASH, v0, v1) && Visits(CLASH, v1, v2) && Visits(CLASH, v2, v3);
    run := [v0, v1, v2, v3];
  }

  lemma ClashIncoherent()
    ensures Closed(CLASH) && !Coherent(CLASH, 0)
  {
    assert !Alike(CLASH, 1, 2);
    ReachesRoot(CLASH, 0);
    ReachesNested(CLASH, 0, 0, 1);
    ReachesNested(CLASH, 0, 0, 2);
  }

  /** Without coherent ids the order of the worklist does show in the stream. */
  lemma IncoherentOrderShows()
    ensures Closed(CLASH) && !Coherent(CLASH, 0)
    ensures exists v: seq<Walk>, w: seq<Walk> ::
      IsTraversal(CLASH, 0, v) && IsTraversal(CLASH, 0, w) &&
      Lines(v[|v| - 1].described) != Lines(w[|w| - 1].described)
  {
    ClashIncoherent();
    var v := ClashRun(1, 2);
    var w := ClashRun(2, 1);
  }
}
