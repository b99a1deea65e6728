/** The continuation walk: which posts belong to a paper's version chain.

    `consentChainCteBody` walks `pevo.continues` pointers inside the database and
    `resolveContinuationChain` walks them in a loop. Posts point at their parent,
    the broadcaster controls the pointer, and a cycle is possible. */
module ContinuationChain {
  import opened Prelude

  const MAX_HOPS: nat := 50

  datatype PostId = PostId(author: string, permlink: string)

  /** A top-level post of the namespace. `hives` is its contribution to the
      admit-set, `slots` its author list as slot keys, `created` its first
      operation, and `isPaper` whether it passes the paper-class check. */
  datatype Post = Post(
    continues: Option<PostId>,
    hives: set<string>,
    slots: seq<SlotKey>,
    isPaper: bool,
    created: Pos)

  datatype SlotKey = HiveSlot(hive: string) | OrcidSlot(orcid: string) | NameSlot(name: string)

  type Posts = map<PostId, Post>
  type Path = seq<PostId>

  predicate InPosts(posts: Posts, path: Path)
  {
    |path| > 0 && forall i :: 0 <= i < |path| ==> path[i] in posts
  }

  ghost predicate SameBirth(posts: Posts, a: PostId, b: PostId)
  {
    a in posts && b in posts && a != b && posts[a].created == posts[b].created
  }

  // Two posts never share their first operation.
  ghost predicate DistinctCreation(posts: Posts)
  {
    forall a, b :: !SameBirth(posts, a, b)
  }

  function Cumulative(posts: Posts, path: Path): set<string>
    requires InPosts(posts, path)
  {
    set i, h | 0 <= i < |path| && h in posts[path[i]].hives :: h
  }

  // The posts the author-consent gate lets continue the path.
  function Candidates(posts: Posts, path: Path): set<PostId>
    requires InPosts(posts, path)
  {
    set c | c in posts && posts[c].continues == Some(Last(path))
            && c.author in Cumulative(posts, path) && posts[c].isPaper
  }

  // What the recursive query adds: no revisit, and at most MAX_HOPS hops.
  function Children(posts: Posts, path: Path): set<PostId>
    requires InPosts(posts, path)
  {
    if |path| - 1 < MAX_HOPS
    then set c | c in Candidates(posts, path) && c !in path
    else {}
  }

  predicate IsEarliest(posts: Posts, among: set<PostId>, c: PostId)
    requires among <= posts.Keys
  {
    c in among && forall d :: d in among && d != c ==> Before(posts[c].created, posts[d].created)
  }

  lemma {:induction false} EarliestExists(posts: Posts, among: set<PostId>)
    requires DistinctCreation(posts) && among <= posts.Keys && among != {}
    ensures exists c :: IsEarliest(posts, among, c) && c in among
  {
    var d :| d in among;
    if among == {d} {
      assert IsEarliest(posts, among, d);
    } else {
      EarliestExists(posts, among - {d});
      var e :| e in among - {d} && IsEarliest(posts, among - {d}, e);
      assert !SameBirth(posts, d, e);
      assert IsEarliest(posts, among, if Before(posts[d].created, posts[e].created) then d else e);
    }
  }

  ghost function Earliest(posts: Posts, among: set<PostId>): (c: PostId)
    requires DistinctCreation(posts) && among <= posts.Keys && among != {}
    ensures IsEarliest(posts, among, c)
  {
    EarliestExists(posts, among);
    var c :| IsEarliest(posts, among, c);
    c
  }

  // ---------------------------------------------------------------------
  // chain_tree: every admissible path, level by level
  // ---------------------------------------------------------------------

  // The rows of `chain_tree` at one depth; a row is its `visited` array.
  function Level(posts: Posts, roots: set<PostId>, depth: nat): (rows: set<Path>)
    ensures forall p :: p in rows ==> InPosts(posts, p) && |p| == depth + 1
  {
    if depth == 0 then
      set r | r in roots && r in posts && posts[r].isPaper :: [r]
    else
      set p, c | p in Level(posts, roots, depth - 1) && c in Children(posts, p) :: p + [c]
  }

  function ChainTree(posts: Posts, roots: set<PostId>): (rows: set<Path>)
    ensures forall p :: p in rows ==> InPosts(posts, p)
  {
    set d, p | 0 <= d <= MAX_HOPS && p in Level(posts, roots, d) :: p
  }

  // A path every hop of which the gate admitted, judged against its own prefix.
  predicate IsTreePath(posts: Posts, p: Path)
  {
    InPosts(posts, p) && posts[p[0]].isPaper
    && forall i :: 1 <= i < |p| ==> p[i] in Children(posts, p[..i])
  }

  lemma {:induction false} TreePathExtends(posts: Posts, p: Path, c: PostId)
    requires InPosts(posts, p)
    ensures IsTreePath(posts, p + [c]) <==> IsTreePath(posts, p) && c in Children(posts, p)
  {
    var q := p + [c];
    assert q[..|p|] == p;
    assert forall i :: 1 <= i < |p| ==> q[..i] == p[..i];
    if IsTreePath(posts, q) {
      assert q[|p|] in Children(posts, q[..|p|]);
      forall i | 1 <= i < |p| ensures p[i] in Children(posts, p[..i]) {
        assert q[i] in Children(posts, q[..i]);
      }
    }
  }

  lemma TreePathPrefix(posts: Posts, p: Path, n: nat)
    requires IsTreePath(posts, p) && 1 <= n <= |p|
    ensures IsTreePath(posts, p[..n])
  {
    forall i | 1 <= i < n ensures p[..n][i] in Children(posts, p[..n][..i]) {
      assert p[..n][..i] == p[..i];
    }
  }

  lemma {:induction false} LevelMeaning(posts: Posts, roots: set<PostId>, depth: nat, p: Path)
    ensures p in Level(posts, roots, depth)
       <==> |p| == depth + 1 && IsTreePath(posts, p) && p[0] in roots
  {
    if depth == 0 {
      RootLevel(posts, roots, p);
    } else if |p| == depth + 1 {
      hide *;
      var front, c := p[..depth], p[depth];
      assert p == front + [c];
      LevelMeaning(posts, roots, depth - 1, front);
      NextLevel(posts, roots, depth, front, c);
      FrontInPosts(posts, front, c);
      if InPosts(posts, front) {
        TreePathExtends(posts, front, c);
      }
    }
  }

  lemma FrontInPosts(posts: Posts, front: Path, c: PostId)
    requires |front| > 0
    ensures InPosts(posts, front + [c]) <==> InPosts(posts, front) && c in posts
    ensures IsTreePath(posts, front + [c]) ==> InPosts(posts, front)
  {
    var p := front + [c];
    assert p[|front|] == c;
    assert forall i :: 0 <= i < |front| ==> p[i] == front[i];
  }

  lemma RootLevel(posts: Posts, roots: set<PostId>, p: Path)
    ensures p in Level(posts, roots, 0) <==> |p| == 1 && IsTreePath(posts, p) && p[0] in roots
  {
    if |p| == 1 {
      assert p == [p[0]];
    }
  }

  lemma NextLevel(posts: Posts, roots: set<PostId>, depth: nat, front: Path, c: PostId)
    requires depth > 0
    ensures front + [c] in Level(posts, roots, depth)
       <==> front in Level(posts, roots, depth - 1) && c in Children(posts, front)
  {
    hide Children;
    if front + [c] in Level(posts, roots, depth) {
      var q, e :| q in Level(posts, roots, depth - 1) && e in Children(posts, q) && front + [c] == q + [e];
      assert q == (q + [e])[..|q|] && |q| == depth;
      assert front == (front + [c])[..|front|];
    }
  }

  /** The recursive query returns exactly the admissible paths from its seeds,
      none longer than MAX_HOPS hops although no path length is named. */
  lemma ChainTreeIsAllAdmittedPaths(posts: Posts, roots: set<PostId>, p: Path)
    ensures p in ChainTree(posts, roots) <==> IsTreePath(posts, p) && p[0] in roots
  {
    if p in ChainTree(posts, roots) {
      var d :| 0 <= d <= MAX_HOPS && p in Level(posts, roots, d);
      LevelMeaning(posts, roots, d, p);
    }
    if IsTreePath(posts, p) && p[0] in roots {
      if |p| > 1 {
        assert p[|p| - 1] in Children(posts, p[..|p| - 1]);
      }
      LevelMeaning(posts, roots, |p| - 1, p);
      assert p in Level(posts, roots, |p| - 1);
    }
  }

  ghost predicate IsTree(posts: Posts, roots: set<PostId>, tree: set<Path>)
  {
    forall p {:trigger p in tree} :: p in tree <==> IsTreePath(posts, p) && p[0] in roots
  }

  // ---------------------------------------------------------------------
  // Termination and linearity
  // ---------------------------------------------------------------------

  lemma TreePathFacts(posts: Posts, p: Path)
    requires IsTreePath(posts, p)
    ensures NoDuplicates(p)
    ensures forall i :: 1 <= i < |p| ==> posts[p[i]].continues == Some(p[i - 1])
    ensures forall i :: 1 <= i < |p| ==> posts[p[i]].isPaper && p[i].author in Cumulative(posts, p[..i])
  {
    forall i | 1 <= i < |p|
      ensures posts[p[i]].continues == Some(p[i - 1]) && p[i] !in p[..i]
      ensures posts[p[i]].isPaper && p[i].author in Cumulative(posts, p[..i])
    {
      assert p[i] in Children(posts, p[..i]);
      assert Last(p[..i]) == p[i - 1];
    }
    forall i, j | 0 <= i < j < |p| ensures p[i] != p[j] {
      assert p[j] !in p[..j];
      assert p[..j][i] == p[i];
    }
  }

  // The hop to a post, spelled out.
  predicate HopInWords(posts: Posts, p: Path, i: nat)
    requires 1 <= i < |p| && forall j :: 0 <= j < |p| ==> p[j] in posts
  {
    && posts[p[i]].isPaper && posts[p[i]].continues == Some(p[i - 1]) && p[i] !in p[..i]
    && exists j :: 0 <= j < i && p[i].author in posts[p[j]].hives
  }

  /** A row of the recursion is a path of papers from a seed, of at most 50 hops, on
      which each post names the one before it, appears once, and is by an account
      that some earlier post of the path names. */
  lemma RowsInWords(posts: Posts, roots: set<PostId>, p: Path)
    ensures p in ChainTree(posts, roots)
       <==> && 1 <= |p| <= 51 && p[0] in roots && (forall j :: 0 <= j < |p| ==> p[j] in posts) && posts[p[0]].isPaper
            && forall i :: 1 <= i < |p| ==> HopInWords(posts, p, i)
  {
    ChainTreeIsAllAdmittedPaths(posts, roots, p);
    if InPosts(posts, p) {
      forall i | 1 <= i < |p| ensures p[i] in Children(posts, p[..i]) <==> i <= 50 && HopInWords(posts, p, i) {
        HopIsAChild(posts, p, i);
      }
      assert |p| > 1 && IsTreePath(posts, p) ==> p[|p| - 1] in Children(posts, p[..|p| - 1]);
    }
  }

  lemma HopIsAChild(posts: Posts, p: Path, i: nat)
    requires InPosts(posts, p) && 1 <= i < |p|
    ensures p[i] in Children(posts, p[..i]) <==> i <= 50 && HopInWords(posts, p, i)
  {
    assert Last(p[..i]) == p[i - 1];
    assert p[i].author in Cumulative(posts, p[..i]) <==> exists j :: 0 <= j < i && p[i].author in posts[p[j]].hives by {
      if j :| 0 <= j < i && p[i].author in posts[p[j]].hives {
        assert p[..i][j] == p[j];
      }
      if p[i].author in Cumulative(posts, p[..i]) {
        var j :| 0 <= j < i && p[i].author in posts[p[..i][j]].hives;
        assert p[..i][j] == p[j];
      }
    }
    hide Cumulative;
  }

  /** The visited guard alone bounds every path by the number of posts, whatever
      cycles the pointers form. */
  lemma WalkIsFinite(posts: Posts, p: Path)
    requires IsTreePath(posts, p)
    ensures |p| <= |posts|
  {
    TreePathFacts(posts, p);
    NoDuplicatesFit(p, posts.Keys);
    assert |posts.Keys| == |posts|;
  }

  // Two paths that end at one node agree backwards from it.
  lemma {:induction false} SameEndSameTail(posts: Posts, p: Path, q: Path, k: nat)
    requires IsTreePath(posts, p) && IsTreePath(posts, q) && Last(p) == Last(q)
    requires k < |p| && k < |q|
    ensures p[|p| - 1 - k] == q[|q| - 1 - k]
  {
    if k > 0 {
      SameEndSameTail(posts, p, q, k - 1);
      TreePathFacts(posts, p);
      TreePathFacts(posts, q);
      assert posts[p[|p| - k]].continues == Some(p[|p| - 1 - k]);
      assert posts[q[|q| - k]].continues == Some(q[|q| - 1 - k]);
    }
  }

  lemma {:induction false} ShorterEndsAtRoot(posts: Posts, p: Path, q: Path)
    requires IsTreePath(posts, p) && IsTreePath(posts, q)
    requires p[0] == q[0] && Last(p) == Last(q)
    ensures |p| >= |q|
  {
    if |p| < |q| {
      SameEndSameTail(posts, p, q, |p| - 1);
      TreePathFacts(posts, q);
      assert false;
    }
  }

  /** A node is reached at most once per root: its path is determined by it. */
  lemma OnePathPerNode(posts: Posts, p: Path, q: Path)
    requires IsTreePath(posts, p) && IsTreePath(posts, q)
    requires p[0] == q[0] && Last(p) == Last(q)
    ensures p == q
  {
    hide *;
    ShorterEndsAtRoot(posts, p, q);
    ShorterEndsAtRoot(posts, q, p);
    forall i | 0 <= i < |p| ensures p[i] == q[i] {
      SameEndSameTail(posts, p, q, |p| - 1 - i);
    }
  }

  /** So the recursion is linear: per root, no more rows than posts. */
  lemma ChainTreeIsLinear(posts: Posts, roots: set<PostId>, root: PostId)
    ensures |set p | p in ChainTree(posts, roots) && p[0] == root| <= |posts|
  {
    var rows := set p | p in ChainTree(posts, roots) && p[0] == root;
    forall p | p in rows ensures IsTreePath(posts, p) {
      ChainTreeIsAllAdmittedPaths(posts, roots, p);
    }
    forall p, q | p in rows && q in rows && Last(p) == Last(q) ensures p == q {
      OnePathPerNode(posts, p, q);
    }
    InjectionFits(rows, posts.Keys, (p: Path) requires |p| > 0 => Last(p));
    assert |posts.Keys| == |posts|;
  }

  // ---------------------------------------------------------------------
  // canonical_chain: the rank-1 child at every hop
  // ---------------------------------------------------------------------

  // The partition `ranked_children` ranks: rows of one root with one parent
  // node, whatever path each row took.
  predicate SamePartition(r: Path, s: Path)
  {
    |r| >= 2 && |s| >= 2 && r[0] == s[0] && r[|r| - 2] == s[|s| - 2]
  }

  // `sibling_rank = 1`.
  ghost predicate IsRankOne(posts: Posts, tree: set<Path>, r: Path)
  {
    && |r| >= 2 && Last(r) in posts
    && forall s :: s in tree && SamePartition(r, s) && Last(s) in posts && Last(s) != Last(r)
         ==> Before(posts[Last(r)].created, posts[Last(s)].created)
  }

  ghost predicate JoinsRankOne(posts: Posts, tree: set<Path>, parent: Path, r: Path)
  {
    && |parent| > 0 && |r| >= 2 && parent[0] == r[0] && Last(parent) == r[|r| - 2]
    && r in tree && IsRankOne(posts, tree, r)
  }

  // `canonical_chain` as its recursion derives it: a root row, then at each
  // hop a rank-1 row joined to the previous one on the parent node. A row is
  // in the result when a derivation ends in it.
  ghost predicate Derives(posts: Posts, tree: set<Path>, rows: seq<Path>)
  {
    && |rows| > 0 && rows[0] in tree && |rows[0]| == 1
    && forall i :: 0 < i < |rows| ==> JoinsRankOne(posts, tree, rows[i - 1], rows[i])
  }

  // One path, extended by the earliest-created admissible continuation.
  ghost function Walk(posts: Posts, path: Path): (walked: Path)
    requires DistinctCreation(posts) && InPosts(posts, path)
    ensures InPosts(posts, walked) && path <= walked
    decreases MAX_HOPS + 1 - |path|
  {
    if Children(posts, path) == {} then path
    else Walk(posts, path + [Earliest(posts, Children(posts, path))])
  }

  lemma {:induction false} WalkIsTreePath(posts: Posts, path: Path)
    requires DistinctCreation(posts) && IsTreePath(posts, path)
    ensures IsTreePath(posts, Walk(posts, path))
    decreases MAX_HOPS + 1 - |path|
  {
    if Children(posts, path) != {} {
      var c := Earliest(posts, Children(posts, path));
      TreePathExtends(posts, path, c);
      WalkIsTreePath(posts, path + [c]);
    }
  }

  // Walking on from any point of the walk gives the same walk.
  lemma {:induction false} WalkResumes(posts: Posts, from: Path, mid: Path)
    requires DistinctCreation(posts) && InPosts(posts, from)
    requires from <= mid <= Walk(posts, from)
    ensures InPosts(posts, mid) && Walk(posts, mid) == Walk(posts, from)
    decreases MAX_HOPS + 1 - |from|
  {
    if from != mid {
      var next := from + [Earliest(posts, Children(posts, from))];
      assert next <= Walk(posts, from);
      assert next == Walk(posts, from)[..|next|];
      assert next <= mid;
      WalkResumes(posts, next, mid);
    }
  }

  lemma ParentRow(posts: Posts, p: Path, r: Path)
    requires IsTreePath(posts, p) && IsTreePath(posts, r) && |r| >= 2
    requires p[0] == r[0] && Last(p) == r[|r| - 2]
    ensures r == p + [Last(r)] && Last(r) in Children(posts, p)
  {
    var front, c := r[..|r| - 1], Last(r);
    assert InPosts(posts, front);
    assert r == front + [c];
    hide IsTreePath, Children, InPosts;
    TreePathExtends(posts, front, c);
    OnePathPerNode(posts, p, front);
  }

  lemma RankOneIsEarliest(posts: Posts, roots: set<PostId>, tree: set<Path>, p: Path, c: PostId)
    requires IsTree(posts, roots, tree) && p in tree && c in Children(posts, p)
    requires IsRankOne(posts, tree, p + [c])
    ensures IsEarliest(posts, Children(posts, p), c)
  {
    var r := p + [c];
    assert r[0] == p[0] && r[|r| - 2] == Last(p);
    hide IsTreePath, Cumulative;
    forall d | d in Children(posts, p) && d != c ensures Before(posts[c].created, posts[d].created) {
      TreePathExtends(posts, p, d);
      var s := p + [d];
      assert s[0] == p[0];
      assert s in tree && SamePartition(r, s) && Last(s) == d;
    }
  }

  lemma EarliestIsRankOne(posts: Posts, roots: set<PostId>, tree: set<Path>, p: Path, c: PostId)
    requires IsTree(posts, roots, tree) && p in tree && c in Children(posts, p)
    requires IsEarliest(posts, Children(posts, p), c)
    ensures IsRankOne(posts, tree, p + [c])
  {
    var r := p + [c];
    assert r[0] == p[0] && r[|r| - 2] == Last(p);
    hide IsTreePath, Cumulative;
    forall s | s in tree && SamePartition(r, s) && Last(s) != Last(r)
      ensures Last(s) in posts && Before(posts[Last(r)].created, posts[Last(s)].created)
    {
      ParentRow(posts, p, s);
    }
  }

  // Among the rows under one parent, rank 1 is the earliest child of the one
  // path that reaches that parent.
  lemma RankOneIsEarliestChild(posts: Posts, roots: set<PostId>, tree: set<Path>, p: Path, c: PostId)
    requires DistinctCreation(posts) && IsTree(posts, roots, tree) && p in tree
    requires c in Children(posts, p)
    ensures IsRankOne(posts, tree, p + [c]) <==> IsEarliest(posts, Children(posts, p), c)
  {
    assert InPosts(posts, p);
    hide IsTree, IsRankOne, IsEarliest, IsTreePath, Cumulative;
    if IsRankOne(posts, tree, p + [c]) {
      RankOneIsEarliest(posts, roots, tree, p, c);
    }
    if IsEarliest(posts, Children(posts, p), c) {
      EarliestIsRankOne(posts, roots, tree, p, c);
    }
  }

  // One hop of the recursion extends a canonical row by its earliest child.
  lemma CanonicalHop(posts: Posts, roots: set<PostId>, tree: set<Path>, p: Path, r: Path)
    requires DistinctCreation(posts) && IsTree(posts, roots, tree) && p in tree
    requires |r| >= 2
    ensures r in tree && p[0] == r[0] && Last(p) == r[|r| - 2] && IsRankOne(posts, tree, r)
       <==> Children(posts, p) != {} && r == p + [Earliest(posts, Children(posts, p))]
  {
    assert InPosts(posts, p) && Children(posts, p) <= posts.Keys;
    hide IsRankOne, IsEarliest, Children, IsTreePath, DistinctCreation;
    if r in tree && p[0] == r[0] && Last(p) == r[|r| - 2] {
      ParentRow(posts, p, r);
      RankOneIsEarliestChild(posts, roots, tree, p, Last(r));
      if IsRankOne(posts, tree, r) {
        EarliestUnique(posts, Children(posts, p), Last(r));
      }
    }
    if Children(posts, p) != {} && r == p + [Earliest(posts, Children(posts, p))] {
      TreePathExtends(posts, p, Last(r));
      assert r[0] == p[0] && r[|r| - 2] == Last(p);
      RankOneIsEarliestChild(posts, roots, tree, p, Last(r));
    }
  }

  lemma WalkHop(posts: Posts, p: Path, r: Path)
    requires DistinctCreation(posts) && InPosts(posts, p) && p <= r && |r| == |p| + 1
    ensures r <= Walk(posts, p)
       <==> Children(posts, p) != {} && r == p + [Earliest(posts, Children(posts, p))]
  {
    if Children(posts, p) != {} {
      var next := p + [Earliest(posts, Children(posts, p))];
      assert next <= Walk(posts, next) == Walk(posts, p);
      assert next == Walk(posts, p)[..|next|];
    }
  }

  ghost predicate OnWalk(posts: Posts, roots: set<PostId>, r: Path)
    requires DistinctCreation(posts)
  {
    |r| > 0 && r[0] in roots && r[0] in posts && posts[r[0]].isPaper && r <= Walk(posts, [r[0]])
  }

  lemma OnWalkHop(posts: Posts, roots: set<PostId>, tree: set<Path>, p: Path, r: Path)
    requires DistinctCreation(posts) && IsTree(posts, roots, tree) && OnWalk(posts, roots, p)
    requires |r| >= 2 && p[0] == r[0] && Last(p) == r[|r| - 2]
    ensures r in tree && IsRankOne(posts, tree, r)
       <==> p <= r && |r| == |p| + 1 && OnWalk(posts, roots, r)
  {
    WalkIsTreePath(posts, [r[0]]);
    TreePathPrefix(posts, Walk(posts, [r[0]]), |p|);
    assert p == Walk(posts, [r[0]])[..|p|];
    assert [r[0]] <= p;
    CanonicalHop(posts, roots, tree, p, r);
    WalkResumes(posts, [r[0]], p);
    if p <= r && |r| == |p| + 1 {
      WalkHop(posts, p, r);
    }
    if Children(posts, p) != {} && r == p + [Earliest(posts, Children(posts, p))] {
      WalkHop(posts, p, r);
    }
  }

  lemma OnWalkPrefix(posts: Posts, roots: set<PostId>, r: Path, n: nat)
    requires DistinctCreation(posts) && OnWalk(posts, roots, r) && 1 <= n <= |r|
    ensures OnWalk(posts, roots, r[..n]) && r[..n][0] == r[0]
  {
    assert r[..n] == Walk(posts, [r[0]])[..n];
  }

  lemma RootRow(posts: Posts, roots: set<PostId>, tree: set<Path>, r: Path)
    requires DistinctCreation(posts) && IsTree(posts, roots, tree)
    ensures r in tree && |r| == 1 <==> |r| == 1 && OnWalk(posts, roots, r)
  {
    if |r| == 1 {
      assert r == [r[0]];
      assert r[0] in posts ==> InPosts(posts, r);
    }
  }

  lemma DerivedRowsOnWalk(posts: Posts, roots: set<PostId>, tree: set<Path>, rows: seq<Path>)
    requires DistinctCreation(posts) && IsTree(posts, roots, tree) && Derives(posts, tree, rows)
    ensures |Last(rows)| == |rows| && OnWalk(posts, roots, Last(rows))
  {
    hide OnWalk, IsTree, JoinsRankOne;
    RootRow(posts, roots, tree, rows[0]);
    for i := 1 to |rows|
      invariant |rows[i - 1]| == i && OnWalk(posts, roots, rows[i - 1])
    {
      DerivedHop(posts, roots, tree, rows[i - 1], rows[i]);
    }
  }

  lemma DerivedHop(posts: Posts, roots: set<PostId>, tree: set<Path>, p: Path, r: Path)
    requires DistinctCreation(posts) && IsTree(posts, roots, tree) && OnWalk(posts, roots, p)
    requires JoinsRankOne(posts, tree, p, r)
    ensures |r| == |p| + 1 && OnWalk(posts, roots, r)
  {
    OnWalkHop(posts, roots, tree, p, r);
  }

  lemma WalkRowsDerive(posts: Posts, roots: set<PostId>, tree: set<Path>, r: Path)
    requires DistinctCreation(posts) && IsTree(posts, roots, tree) && OnWalk(posts, roots, r)
    ensures exists rows :: Derives(posts, tree, rows) && Last(rows) == r
  {
    var rows := seq(|r|, i requires 0 <= i < |r| => r[..i + 1]);
    forall i | 0 < i < |rows|
      ensures JoinsRankOne(posts, tree, rows[i - 1], rows[i])
    {
      DerivesHop(posts, roots, tree, r, i);
    }
    OnWalkPrefix(posts, roots, r, 1);
    RootRow(posts, roots, tree, rows[0]);
    assert Last(rows) == r;
  }

  lemma DerivesHop(posts: Posts, roots: set<PostId>, tree: set<Path>, r: Path, i: nat)
    requires DistinctCreation(posts) && IsTree(posts, roots, tree) && OnWalk(posts, roots, r)
    requires 0 < i < |r|
    ensures JoinsRankOne(posts, tree, r[..i], r[..i + 1])
  {
    OnWalkPrefix(posts, roots, r, i);
    OnWalkPrefix(posts, roots, r, i + 1);
    OnWalkHop(posts, roots, tree, r[..i], r[..i + 1]);
  }

  /** The database's canonical chain of a root is one path: the row derived
      after n - 1 hops is exactly the length-n prefix of the walk, although the
      query joins ranked siblings to parents by node and not by path. */
  lemma CanonicalChainIsTheWalk(posts: Posts, roots: set<PostId>, r: Path)
    requires DistinctCreation(posts)
    ensures (exists rows :: Derives(posts, ChainTree(posts, roots), rows) && Last(rows) == r)
       <==> OnWalk(posts, roots, r)
  {
    var tree := ChainTree(posts, roots);
    forall p ensures p in tree <==> IsTreePath(posts, p) && p[0] in roots {
      ChainTreeIsAllAdmittedPaths(posts, roots, p);
    }
    forall rows | Derives(posts, tree, rows) && Last(rows) == r ensures OnWalk(posts, roots, r) {
      DerivedRowsOnWalk(posts, roots, tree, rows);
    }
    if OnWalk(posts, roots, r) {
      WalkRowsDerive(posts, roots, tree, r);
    }
  }

  /** Every continuation on the canonical chain was authored by an account that
      the chain before it names. */
  lemma CanonicalAuthorsAreNamedByPrefix(posts: Posts, root: PostId, i: nat)
    requires DistinctCreation(posts) && root in posts && posts[root].isPaper
    requires 1 <= i < |Walk(posts, [root])|
    ensures var w := Walk(posts, [root]);
            && posts[w[i]].continues == Some(w[i - 1])
            && exists j :: 0 <= j < i && w[i].author in posts[w[j]].hives
  {
    WalkIsTreePath(posts, [root]);
    var w := Walk(posts, [root]);
    TreePathFacts(posts, w);
    assert w[i].author in Cumulative(posts, w[..i]);
    var j :| 0 <= j < i && w[i].author in posts[w[..i][j]].hives;
    assert w[..i][j] == w[j];
  }

  // ---------------------------------------------------------------------
  // Later posts only extend the chain
  // ---------------------------------------------------------------------

  // The corpus grew without edits: old posts unchanged, new ones created later.
  ghost predicate GrewLater(older: Posts, newer: Posts)
  {
    && (forall p :: p in older ==> p in newer && newer[p] == older[p])
    && (forall p, q :: p in older && q in newer && q !in older ==> Before(older[p].created, newer[q].created))
  }

  /** Publishing more posts never rewrites a canonical chain: the chain of the
      older corpus is a prefix of the chain of the newer one. */
  lemma {:induction false} LaterPostsOnlyExtend(older: Posts, newer: Posts, path: Path)
    requires DistinctCreation(older) && DistinctCreation(newer) && GrewLater(older, newer)
    requires InPosts(older, path)
    ensures InPosts(newer, path) && Walk(older, path) <= Walk(newer, path)
    decreases MAX_HOPS + 1 - |path|
  {
    var before, after := Children(older, path), Children(newer, path);
    assert forall h :: h in Cumulative(older, path) <==> h in Cumulative(newer, path);
    if before != {} {
      var c := Earliest(older, before);
      assert before <= after;
      forall d | d in after && d != c ensures Before(newer[c].created, newer[d].created) {
        if d in older {
          assert d in before;
        }
      }
      assert Earliest(newer, after) == c;
      LaterPostsOnlyExtend(older, newer, path + [c]);
    }
  }

  // ---------------------------------------------------------------------
  // The in-process walker, and where it departs from the query
  // ---------------------------------------------------------------------

  // `ORDER BY block_num ASC LIMIT 1`: any candidate of the least creation block,
  // visited ones included. Nothing ranks two candidates of one block.
  predicate IsPick(posts: Posts, path: Path, c: PostId)
    requires InPosts(posts, path)
  {
    && c in Candidates(posts, path)
    && forall d :: d in Candidates(posts, path) ==> posts[c].created.block <= posts[d].created.block
  }

  // What the loop may have walked so far: every post was picked for the chain
  // before it, and was not on it.
  ghost predicate LoopPath(posts: Posts, chain: Path)
  {
    && InPosts(posts, chain) && |chain| - 1 <= MAX_HOPS
    && forall i :: 1 <= i < |chain| ==> IsPick(posts, chain[..i], chain[i]) && chain[i] !in chain[..i]
  }

  // It may end here: at the hop cap, without a candidate, or on a visited one.
  ghost predicate LoopStops(posts: Posts, chain: Path)
    requires InPosts(posts, chain)
  {
    |chain| - 1 >= MAX_HOPS || Candidates(posts, chain) == {} || exists c :: c in chain && IsPick(posts, chain, c)
  }

  // One chain the loop may resolve from a root when nothing interrupts it.
  ghost predicate LoopRuns(posts: Posts, root: PostId, chain: Path)
  {
    LoopPath(posts, chain) && chain[0] == root && LoopStops(posts, chain)
  }

  predicate HasAdmitSet(posts: Posts, root: PostId)
  {
    root in posts && posts[root].isPaper && posts[root].hives != {}
  }

  lemma EarliestUnique(posts: Posts, among: set<PostId>, c: PostId)
    requires DistinctCreation(posts) && among <= posts.Keys && IsEarliest(posts, among, c)
    ensures Earliest(posts, among) == c
  {
  }

  lemma {:induction false} PickExists(posts: Posts, among: set<PostId>)
    requires among <= posts.Keys && among != {}
    ensures exists c :: c in among && forall d :: d in among ==> posts[c].created.block <= posts[d].created.block
  {
    var d :| d in among;
    if among == {d} {
      assert d in among;
    } else {
      PickExists(posts, among - {d});
      var e :| e in among - {d} && forall f :: f in among - {d} ==> posts[e].created.block <= posts[f].created.block;
      var c := if posts[d].created.block < posts[e].created.block then d else e;
      assert c in among && forall f :: f in among ==> posts[c].created.block <= posts[f].created.block;
    }
  }

  /** `resolveContinuationChain`. `cut` is the hop before which it is interrupted,
      if any: by the wall-clock budget, by a query that fails, or, at hop 0, by a
      missing pool or a failed read of the root's authors. */
  method ResolveContinuationChain(posts: Posts, root: PostId, cut: Option<nat>) returns (chain: Path, degraded: bool)
    ensures root !in posts || !posts[root].isPaper || posts[root].hives == {} ==> chain == [root] && degraded
    ensures HasAdmitSet(posts, root) ==> LoopPath(posts, chain) && chain[0] == root
    ensures HasAdmitSet(posts, root) && (cut.None? || |chain| - 1 < cut.value) ==> LoopRuns(posts, root, chain)
    ensures cut.Some? ==> |chain| - 1 <= cut.value
    ensures !degraded <==> && HasAdmitSet(posts, root) && |chain| <= 50 && InPosts(posts, chain)
                           && Candidates(posts, chain) == {} && (cut.Some? ==> |chain| - 1 < cut.value)
  {
    chain, degraded := [root], true;
    if !HasAdmitSet(posts, root) {
      return;
    }
    hide Candidates, Cumulative;
    var cumulative := posts[root].hives;
    var visited := {root};
    RootCumulative(posts, root);
    for i := 0 to MAX_HOPS
      invariant |chain| == i + 1 && chain[0] == root && LoopPath(posts, chain) && degraded
      invariant cut.Some? ==> i <= cut.value
      invariant cumulative == Cumulative(posts, chain)
      invariant visited == set c | c in chain
    {
      if cut == Some(i) {
        return;
      }
      var current := Last(chain);
      var candidates := set c | c in posts && posts[c].continues == Some(current)
                                && c.author in cumulative && posts[c].isPaper;
      CandidatesFound(posts, chain, cumulative, candidates);
      if candidates == {} {
        degraded := false;
        return;
      }
      PickExists(posts, candidates);
      var next :| next in candidates && forall d :: d in candidates ==> posts[next].created.block <= posts[d].created.block;
      assert IsPick(posts, chain, next);
      if next in visited {
        return;
      }
      GrowCumulative(posts, chain, next);
      LoopPathExtends(posts, chain, next);
      visited := visited + {next};
      chain := chain + [next];
      cumulative := cumulative + posts[next].hives;
    }
  }

  lemma LoopPathExtends(posts: Posts, chain: Path, next: PostId)
    requires LoopPath(posts, chain) && |chain| <= MAX_HOPS && IsPick(posts, chain, next) && next !in chain
    requires next in posts
    ensures LoopPath(posts, chain + [next])
  {
    var longer := chain + [next];
    hide IsPick;
    forall i | 1 <= i < |longer| ensures IsPick(posts, longer[..i], longer[i]) && longer[i] !in longer[..i] {
      assert longer[..i] == chain[..i];
    }
  }

  lemma CandidatesFound(posts: Posts, path: Path, cumulative: set<string>, candidates: set<PostId>)
    requires InPosts(posts, path) && cumulative == Cumulative(posts, path)
    requires candidates == set c | c in posts && posts[c].continues == Some(Last(path))
                                  && c.author in cumulative && posts[c].isPaper
    ensures candidates == Candidates(posts, path) && candidates <= posts.Keys
  {
  }

  lemma RootCumulative(posts: Posts, root: PostId)
    requires root in posts
    ensures Cumulative(posts, [root]) == posts[root].hives
  {
    forall h | h in posts[root].hives ensures h in Cumulative(posts, [root]) {
      assert h in posts[[root][0]].hives;
    }
  }

  lemma GrowCumulative(posts: Posts, path: Path, next: PostId)
    requires InPosts(posts, path) && next in posts
    ensures Cumulative(posts, path + [next]) == Cumulative(posts, path) + posts[next].hives
  {
    var longer := path + [next];
    forall h | h in Cumulative(posts, path) ensures h in Cumulative(posts, longer) {
      var i :| 0 <= i < |path| && h in posts[path[i]].hives;
      assert longer[i] == path[i];
    }
    assert longer[|path|] == next;
  }

  /** A continuation that is already on the chain can only be its root: every
      other chain post already continues something earlier. */
  lemma VisitedCandidateIsRoot(posts: Posts, p: Path, c: PostId)
    requires IsTreePath(posts, p) && c in Candidates(posts, p) && c in p
    ensures c == p[0]
  {
    TreePathFacts(posts, p);
    var j :| 0 <= j < |p| && p[j] == c;
  }

  // At a hop of the query's walk another admissible candidate is at least as early
  // by block: a sibling of the same block, or the root itself.
  ghost predicate Rivals(posts: Posts, walk: Path, i: nat, d: PostId)
    requires InPosts(posts, walk)
  {
    && 1 <= i < |walk| && d in posts && d != walk[i] && d in Candidates(posts, walk[..i])
    && posts[d].created.block <= posts[walk[i]].created.block
  }

  // Two admissible continuations of one node of the walk share the least block.
  ghost predicate Tied(posts: Posts, walk: Path)
    requires InPosts(posts, walk)
  {
    exists i: nat, d :: Rivals(posts, walk, i, d) && d != walk[0] && posts[d].created.block == posts[walk[i]].created.block
  }

  // The root's own pointer names a node of the walk, an account named up to there
  // wrote the root, and the walk's next post was not created in an earlier block.
  ghost predicate RootCuts(posts: Posts, walk: Path)
    requires InPosts(posts, walk)
  {
    exists i {:trigger walk[..i]} :: 1 <= i < |walk| && posts[walk[0]].continues == Some(walk[i - 1])
      && walk[0].author in Cumulative(posts, walk[..i])
      && posts[walk[0]].created.block <= posts[walk[i]].created.block
  }

  lemma WalkHops(posts: Posts, root: PostId, i: nat)
    requires DistinctCreation(posts) && root in posts && posts[root].isPaper
    requires 1 <= i < |Walk(posts, [root])|
    ensures var w := Walk(posts, [root]); IsEarliest(posts, Children(posts, w[..i]), w[i])
  {
    var w := Walk(posts, [root]);
    assert [root] <= w[..i] <= w;
    WalkResumes(posts, [root], w[..i]);
    assert w[..i + 1] == w[..i] + [w[i]];
    WalkHop(posts, w[..i], w[..i + 1]);
  }

  lemma WalkStops(posts: Posts, root: PostId)
    requires DistinctCreation(posts) && root in posts && posts[root].isPaper
    ensures Children(posts, Walk(posts, [root])) == {}
  {
    var w := Walk(posts, [root]);
    WalkResumes(posts, [root], w);
  }

  // A rival that is not the root is unvisited, so it shares the block of the post
  // the walk takes.
  lemma RivalTiesOrCuts(posts: Posts, root: PostId, i: nat, d: PostId)
    requires DistinctCreation(posts) && root in posts && posts[root].isPaper
    requires Rivals(posts, Walk(posts, [root]), i, d)
    ensures Tied(posts, Walk(posts, [root])) || RootCuts(posts, Walk(posts, [root]))
  {
    assert IsTreePath(posts, [root]);
    hide Walk, DistinctCreation, Cumulative, IsTreePath;
    var w := Walk(posts, [root]);
    WalkIsTreePath(posts, [root]);
    WalkHops(posts, root, i);
    TreePathPrefix(posts, w, i);
    if d in w[..i] {
      VisitedCandidateIsRoot(posts, w[..i], d);
      assert w[..i][i - 1] == w[i - 1] && d == w[0];
    } else {
      assert d in Children(posts, w[..i]);
      assert Before(posts[w[i]].created, posts[d].created);
      assert Rivals(posts, w, i, d) && d != w[0];
    }
  }

  lemma RootNotRevisited(posts: Posts, p: Path)
    requires IsTreePath(posts, p)
    ensures forall i :: 1 <= i < |p| ==> p[i] != p[0]
  {
    TreePathFacts(posts, p);
  }

  lemma RootCutsAt(posts: Posts, w: Path, i: nat)
    requires IsTreePath(posts, w) && 1 <= i < |w| && posts[w[0]].continues == Some(w[i - 1])
    requires w[0].author in Cumulative(posts, w[..i]) && posts[w[0]].created.block <= posts[w[i]].created.block
    ensures Rivals(posts, w, i, w[0])
  {
    RootNotRevisited(posts, w);
    hide Cumulative;
    assert Last(w[..i]) == w[i - 1];
  }

  lemma RootCutIsRival(posts: Posts, root: PostId)
    requires DistinctCreation(posts) && root in posts && posts[root].isPaper
    requires RootCuts(posts, Walk(posts, [root]))
    ensures exists i: nat :: Rivals(posts, Walk(posts, [root]), i, root)
  {
    assert IsTreePath(posts, [root]);
    hide Walk, DistinctCreation, Cumulative, IsTreePath, Rivals;
    var w := Walk(posts, [root]);
    WalkIsTreePath(posts, [root]);
    var i :| 1 <= i < |w| && posts[w[0]].continues == Some(w[i - 1]) && w[0].author in Cumulative(posts, w[..i])
             && posts[w[0]].created.block <= posts[w[i]].created.block;
    RootCutsAt(posts, w, i);
  }

  lemma RivalIsTieOrRoot(posts: Posts, root: PostId)
    requires DistinctCreation(posts) && root in posts && posts[root].isPaper
    ensures var w := Walk(posts, [root]); (exists i: nat, d :: Rivals(posts, w, i, d)) <==> Tied(posts, w) || RootCuts(posts, w)
  {
    var w := Walk(posts, [root]);
    hide Walk, Rivals, RootCuts, DistinctCreation;
    if i: nat, d :| Rivals(posts, w, i, d) {
      RivalTiesOrCuts(posts, root, i, d);
    }
    if RootCuts(posts, w) {
      RootCutIsRival(posts, root);
    }
  }

  lemma PickIsChild(posts: Posts, p: Path, c: PostId)
    requires InPosts(posts, p) && |p| <= MAX_HOPS && IsPick(posts, p, c) && c !in p
    ensures c in Children(posts, p)
  {
    hide Cumulative;
  }

  // Where the walk goes on, a pick that no rival explains is its next post.
  lemma PickWithoutRival(posts: Posts, w: Path, n: nat, c: PostId)
    requires InPosts(posts, w) && 1 <= n < |w| && w[n] in Candidates(posts, w[..n]) && IsPick(posts, w[..n], c)
    requires !Rivals(posts, w, n, c)
    ensures c == w[n]
  {
    hide Cumulative;
  }

  lemma LoopFollowsHop(posts: Posts, root: PostId, p: Path, c: PostId)
    requires DistinctCreation(posts) && root in posts && posts[root].isPaper
    requires InPosts(posts, p) && [root] <= p <= Walk(posts, [root]) && |p| <= MAX_HOPS
    requires IsPick(posts, p, c) && c !in p
    requires forall d :: !Rivals(posts, Walk(posts, [root]), |p|, d)
    ensures p + [c] <= Walk(posts, [root])
  {
    var w := Walk(posts, [root]);
    assert p == w[..|p|];
    hide Walk, DistinctCreation, Candidates, Cumulative, IsPick, Rivals;
    PickIsChild(posts, p, c);
    WalkStops(posts, root);
    assert |p| == |w| ==> p == w;
    if |p| < |w| {
      WalkHops(posts, root, |p|);
      assert w[|p|] in Children(posts, p);
      hide IsEarliest;
      PickWithoutRival(posts, w, |p|, c);
    }
  }

  // As long as no rival turns up, the loop can only follow the walk.
  lemma {:induction false} LoopFollows(posts: Posts, root: PostId, chain: Path, n: nat)
    requires DistinctCreation(posts) && root in posts && posts[root].isPaper
    requires LoopPath(posts, chain) && chain[0] == root && 1 <= n <= |chain|
    requires forall i: nat, d :: !Rivals(posts, Walk(posts, [root]), i, d)
    ensures chain[..n] <= Walk(posts, [root])
  {
    hide Walk, Rivals, IsPick, DistinctCreation;
    if n > 1 {
      var k := n - 1;
      LoopFollows(posts, root, chain, k);
      assert IsPick(posts, chain[..k], chain[k]) && chain[k] !in chain[..k];
      hide *;
      LoopFollowsHop(posts, root, chain[..k], chain[k]);
      assert chain[..n] == chain[..k] + [chain[k]];
    }
  }

  lemma {:induction false} LoopCompletes(posts: Posts, chain: Path) returns (whole: Path)
    requires LoopPath(posts, chain)
    ensures chain <= whole && LoopPath(posts, whole) && LoopStops(posts, whole)
    decreases MAX_HOPS + 1 - |chain|
  {
    if LoopStops(posts, chain) {
      whole := chain;
    } else {
      PickExists(posts, Candidates(posts, chain));
      var next :| next in Candidates(posts, chain)
                  && forall d :: d in Candidates(posts, chain) ==> posts[next].created.block <= posts[d].created.block;
      assert IsPick(posts, chain, next);
      LoopPathExtends(posts, chain, next);
      whole := LoopCompletes(posts, chain + [next]);
      assert chain <= chain + [next] <= whole;
    }
  }

  lemma WalkIsPicked(posts: Posts, root: PostId, i: nat)
    requires DistinctCreation(posts) && root in posts && posts[root].isPaper
    requires 1 <= i < |Walk(posts, [root])| && forall d :: !Rivals(posts, Walk(posts, [root]), i, d)
    ensures var w := Walk(posts, [root]); IsPick(posts, w[..i], w[i]) && w[i] !in w[..i] && i <= MAX_HOPS
  {
    var w := Walk(posts, [root]);
    WalkHops(posts, root, i);
    hide Walk, DistinctCreation, Cumulative;
    assert w[i] in Candidates(posts, w[..i]) && w[i] !in w[..i];
    forall d | d in Candidates(posts, w[..i]) ensures posts[w[i]].created.block <= posts[d].created.block {
      assert !Rivals(posts, w, i, d);
    }
  }

  // Before the first rival the loop can follow the walk.
  lemma WalkIsLoopPath(posts: Posts, root: PostId, n: nat)
    requires DistinctCreation(posts) && root in posts && posts[root].isPaper
    requires 1 <= n <= |Walk(posts, [root])|
    requires forall i: nat, d :: i < n ==> !Rivals(posts, Walk(posts, [root]), i, d)
    ensures LoopPath(posts, Walk(posts, [root])[..n])
  {
    var w := Walk(posts, [root]);
    var p := w[..n];
    hide Walk, DistinctCreation, IsPick, Rivals;
    if n > 1 {
      WalkIsPicked(posts, root, n - 1);
    }
    forall i | 1 <= i < n ensures IsPick(posts, p[..i], p[i]) && p[i] !in p[..i] {
      WalkIsPicked(posts, root, i);
      assert p[..i] == w[..i];
    }
  }

  // At the first rival the loop can leave the walk.
  lemma RivalMisleads(posts: Posts, root: PostId, i: nat, d: PostId) returns (chain: Path)
    requires DistinctCreation(posts) && root in posts && posts[root].isPaper
    requires Rivals(posts, Walk(posts, [root]), i, d)
    requires forall j: nat, e :: j < i ==> !Rivals(posts, Walk(posts, [root]), j, e)
    ensures LoopRuns(posts, root, chain) && chain != Walk(posts, [root])
  {
    var w := Walk(posts, [root]);
    WalkIsLoopPath(posts, root, i);
    var p := w[..i];
    PickExists(posts, Candidates(posts, p));
    var c :| c in Candidates(posts, p)
             && forall e :: e in Candidates(posts, p) ==> posts[c].created.block <= posts[e].created.block;
    if c == w[i] {
      c := d;
    }
    assert IsPick(posts, p, c) && c != w[i];
    if c in p {
      chain := p;
      assert LoopStops(posts, chain);
    } else {
      WalkHops(posts, root, i);
      LoopPathExtends(posts, p, c);
      chain := LoopCompletes(posts, p + [c]);
      assert chain[i] == (p + [c])[i] == c;
    }
  }

  lemma {:induction false} FirstRival(posts: Posts, walk: Path, i: nat, d: PostId) returns (j: nat, e: PostId)
    requires InPosts(posts, walk) && Rivals(posts, walk, i, d)
    ensures Rivals(posts, walk, j, e) && forall k: nat, f :: k < j ==> !Rivals(posts, walk, k, f)
    decreases i
  {
    if k: nat, f :| k < i && Rivals(posts, walk, k, f) {
      j, e := FirstRival(posts, walk, k, f);
    } else {
      j, e := i, d;
    }
  }

  // Stopping short of the walk's end takes a rival there.
  lemma StopsShortAtRival(posts: Posts, root: PostId, chain: Path)
    requires DistinctCreation(posts) && root in posts && posts[root].isPaper && LoopRuns(posts, root, chain)
    requires chain <= Walk(posts, [root])
    ensures chain == Walk(posts, [root]) || exists c :: Rivals(posts, Walk(posts, [root]), |chain|, c)
  {
    var w, n := Walk(posts, [root]), |chain|;
    assert chain == w[..n];
    if n < |w| {
      WalkHops(posts, root, n);
      assert w[n] in Candidates(posts, chain) && w[n] !in chain;
      hide Walk;
      var c :| c in chain && IsPick(posts, chain, c);
      assert Rivals(posts, w, n, c);
    }
  }

  lemma LoopEndsWithWalk(posts: Posts, root: PostId, chain: Path)
    requires DistinctCreation(posts) && root in posts && posts[root].isPaper && LoopRuns(posts, root, chain)
    requires forall i: nat, d :: !Rivals(posts, Walk(posts, [root]), i, d)
    ensures chain == Walk(posts, [root])
  {
    LoopFollows(posts, root, chain, |chain|);
    assert chain[..|chain|] == chain;
    StopsShortAtRival(posts, root, chain);
  }

  ghost predicate WalkersAgree(posts: Posts, root: PostId)
    requires DistinctCreation(posts) && root in posts
  {
    forall chain :: LoopRuns(posts, root, chain) ==> chain == Walk(posts, [root])
  }

  /** The loop is sure to resolve the query's chain exactly when no two admissible
      continuations of a node of that chain share the least block and the root's
      own pointer does not cut it. Otherwise a run of the loop departs from it. */
  lemma WalkersAgreeIff(posts: Posts, root: PostId)
    requires DistinctCreation(posts) && root in posts && posts[root].isPaper
    ensures WalkersAgree(posts, root) <==> !Tied(posts, Walk(posts, [root])) && !RootCuts(posts, Walk(posts, [root]))
  {
    var w := Walk(posts, [root]);
    RivalIsTieOrRoot(posts, root);
    hide Tied, RootCuts, Rivals, LoopRuns, Walk, DistinctCreation;
    if i: nat, d :| Rivals(posts, w, i, d) {
      var j, e := FirstRival(posts, w, i, d);
      var chain := RivalMisleads(posts, root, j, e);
    } else {
      forall chain | LoopRuns(posts, root, chain) ensures chain == w {
        LoopEndsWithWalk(posts, root, chain);
      }
    }
  }

  /** On a genuine root, one with no pointer of its own, only a tie misleads it. */
  lemma WalkersAgreeOnRoots(posts: Posts, root: PostId)
    requires DistinctCreation(posts) && root in posts && posts[root].isPaper
    requires posts[root].continues == None
    ensures WalkersAgree(posts, root) <==> !Tied(posts, Walk(posts, [root]))
  {
    WalkersAgreeIff(posts, root);
  }

  // Where only one candidate can be picked, the loop takes it, or stops at it.
  lemma ForcedHop(posts: Posts, root: PostId, chain: Path, p: Path, x: PostId)
    requires LoopRuns(posts, root, chain) && InPosts(posts, p) && p <= chain && |p| <= MAX_HOPS
    requires Candidates(posts, p) != {} && forall c :: IsPick(posts, p, c) ==> c == x
    ensures if x in p then chain == p else p + [x] <= chain
  {
    hide Candidates, IsPick;
    assert chain[..|p|] == p;
    assert |chain| > |p| ==> IsPick(posts, chain[..|p|], chain[|p|]) && chain[|p|] !in chain[..|p|];
    assert |chain| == |p| ==> chain == p;
  }

  // A root that points at its own continuation, which a third post continues.
  function LoopedPosts(): Posts
  {
    map[R := Post(Some(A), {"ann"}, [], true, Pos(1, 1)),
        A := Post(Some(R), {"ann"}, [], true, Pos(2, 2)),
        B := Post(Some(A), {"ann"}, [], true, Pos(3, 3))]
  }

  const R := PostId("ann", "r")
  const A := PostId("ann", "a")
  const B := PostId("ann", "b")

  lemma LoopedFacts()
    ensures var posts := LoopedPosts();
            && DistinctCreation(posts) && R != A && A != B && R != B && posts.Keys == {R, A, B}
            && Candidates(posts, [R]) == {A} && Candidates(posts, [R, A]) == {R, B} && Candidates(posts, [R, A, B]) == {}
  {
    var posts := LoopedPosts();
    assert R.permlink != A.permlink && A.permlink != B.permlink && R.permlink != B.permlink;
    forall p, q ensures !SameBirth(posts, p, q) {
    }
    assert posts[[R][0]].hives == {"ann"} && posts[[R, A][0]].hives == {"ann"};
    assert "ann" in Cumulative(posts, [R]) && "ann" in Cumulative(posts, [R, A]);
  }

  lemma LoopedWalk()
    ensures DistinctCreation(LoopedPosts()) && Walk(LoopedPosts(), [R]) == [R, A, B]
  {
    var posts := LoopedPosts();
    LoopedFacts();
    hide Candidates, Cumulative, DistinctCreation;
    assert Children(posts, [R]) == {A} && Children(posts, [R, A]) == {B} && Children(posts, [R, A, B]) == {};
    EarliestUnique(posts, {A}, A);
    EarliestUnique(posts, {B}, B);
    assert [R] + [A] == [R, A] && [R, A] + [B] == [R, A, B];
    assert Walk(posts, [R, A, B]) == [R, A, B];
  }

  /** The documented claim that the query takes exactly the loop's path fails:
      here the loop stops before the post the query goes on to. */
  lemma WalkersCanDisagree()
    ensures DistinctCreation(LoopedPosts()) && Walk(LoopedPosts(), [R]) == [R, A, B]
    ensures forall chain :: LoopRuns(LoopedPosts(), R, chain) ==> chain == [R, A]
  {
    var posts := LoopedPosts();
    LoopedWalk();
    LoopedFacts();
    hide Candidates, Walk, DistinctCreation;
    forall chain | LoopRuns(posts, R, chain) ensures chain == [R, A] {
      ForcedHop(posts, R, chain, [R], A);
      ForcedHop(posts, R, chain, [R, A], R);
    }
  }

  // Two continuations of one root in one block.
  function TiedPosts(): Posts
  {
    map[R := Post(None, {"ann", "bob"}, [], true, Pos(1, 1)),
        A := Post(Some(R), {"ann"}, [], true, Pos(2, 2)),
        C := Post(Some(R), {"bob"}, [], true, Pos(2, 3))]
  }

  const C := PostId("bob", "c")

  lemma TiedFacts()
    ensures var posts := TiedPosts();
            && DistinctCreation(posts) && R != A && A != C && R != C && posts.Keys == {R, A, C}
            && Candidates(posts, [R]) == {A, C} && Candidates(posts, [R, A]) == {} == Candidates(posts, [R, C])
  {
    var posts := TiedPosts();
    assert R.permlink != A.permlink && A.permlink != C.permlink && R.permlink != C.permlink;
    forall p, q ensures !SameBirth(posts, p, q) {
    }
    assert posts[[R][0]].hives == {"ann", "bob"};
    assert "ann" in Cumulative(posts, [R]) && "bob" in Cumulative(posts, [R]);
  }

  /** And on a tie it may take either branch, where the query takes the one whose
      operation came first. */
  lemma TieCanMislead()
    ensures DistinctCreation(TiedPosts()) && TiedPosts()[R].continues == None && Walk(TiedPosts(), [R]) == [R, A]
    ensures LoopRuns(TiedPosts(), R, [R, A]) && LoopRuns(TiedPosts(), R, [R, C])
  {
    var posts := TiedPosts();
    TiedFacts();
    hide Candidates, Cumulative, DistinctCreation;
    assert Children(posts, [R]) == {A, C} && Children(posts, [R, A]) == {};
    EarliestUnique(posts, {A, C}, A);
    assert [R] + [A] == [R, A];
    assert Walk(posts, [R, A]) == [R, A];
    assert [R, A][..1] == [R] == [R, C][..1];
  }

  // ---------------------------------------------------------------------
  // Display slots: the domain a claim's author_index resolves in
  // ---------------------------------------------------------------------

  function Occurrences(posts: Posts, chain: Path): seq<SlotKey>
    requires forall i :: 0 <= i < |chain| ==> chain[i] in posts
  {
    if chain == [] then [] else posts[chain[0]].slots + Occurrences(posts, chain[1..])
  }

  // The author union in first-occurrence order.
  function DisplayOrder(occurrences: seq<SlotKey>): (shown: seq<SlotKey>)
    ensures NoDuplicates(shown)
    ensures forall k :: k in shown <==> k in occurrences
  {
    if occurrences == [] then []
    else
      var front := DisplayOrder(occurrences[..|occurrences| - 1]);
      assert occurrences == occurrences[..|occurrences| - 1] + [Last(occurrences)];
      if Last(occurrences) in front then front else front + [Last(occurrences)]
  }

  lemma {:induction false} DisplayOrderGrows(a: seq<SlotKey>, b: seq<SlotKey>)
    ensures DisplayOrder(a) <= DisplayOrder(a + b)
  {
    if b == [] {
      assert a + b == a;
    } else {
      DisplayOrderGrows(a, b[..|b| - 1]);
      assert (a + b)[..|a + b| - 1] == a + b[..|b| - 1];
    }
  }

  lemma {:induction false} OccurrencesSplit(posts: Posts, chain: Path, more: Path)
    requires forall i :: 0 <= i < |chain + more| ==> (chain + more)[i] in posts
    requires forall i :: 0 <= i < |chain| ==> chain[i] in posts
    requires forall i :: 0 <= i < |more| ==> more[i] in posts
    ensures Occurrences(posts, chain + more) == Occurrences(posts, chain) + Occurrences(posts, more)
  {
    if chain == [] {
      assert chain + more == more;
    } else {
      assert (chain + more)[1..] == chain[1..] + more;
      OccurrencesSplit(posts, chain[1..], more);
    }
  }

  function FirstAt(occurrences: seq<SlotKey>, k: SlotKey): (at: nat)
    requires k in occurrences
    ensures at < |occurrences| && occurrences[at] == k && k !in occurrences[..at]
  {
    if occurrences[0] == k then 0 else 1 + FirstAt(occurrences[1..], k)
  }

  // `ROW_NUMBER() OVER (ORDER BY MIN(position)) - 1`.
  function AuthorIndex(occurrences: seq<SlotKey>, k: SlotKey): nat
    requires k in occurrences
  {
    |EarlierSlots(occurrences, k)|
  }

  lemma FirstAtIsLeast(occurrences: seq<SlotKey>, k: SlotKey, at: nat)
    requires at < |occurrences| && occurrences[at] == k && k !in occurrences[..at]
    ensures FirstAt(occurrences, k) == at
  {
    var f := FirstAt(occurrences, k);
  }

  lemma FirstAtOfFront(occurrences: seq<SlotKey>, k: SlotKey)
    requires |occurrences| > 0 && k in occurrences
    ensures var front := occurrences[..|occurrences| - 1];
            FirstAt(occurrences, k) == if k in front then FirstAt(front, k) else |front|
  {
    var front := occurrences[..|occurrences| - 1];
    assert occurrences == front + [Last(occurrences)];
    var at := if k in front then FirstAt(front, k) else |front|;
    assert occurrences[..at] == front[..at];
    FirstAtIsLeast(occurrences, k, at);
  }

  function EarlierSlots(occurrences: seq<SlotKey>, k: SlotKey): set<SlotKey>
    requires k in occurrences
  {
    set o | o in occurrences && FirstAt(occurrences, o) < FirstAt(occurrences, k)
  }

  lemma EarlierSlotsOfFront(occurrences: seq<SlotKey>, k: SlotKey)
    requires |occurrences| > 0 && k in occurrences
    ensures var front := occurrences[..|occurrences| - 1];
            EarlierSlots(occurrences, k) == if k in front then EarlierSlots(front, k) else set o | o in front
  {
    var front := occurrences[..|occurrences| - 1];
    assert occurrences == front + [Last(occurrences)];
    FirstAtOfFront(occurrences, k);
    forall o | o in occurrences
      ensures FirstAt(occurrences, o) == if o in front then FirstAt(front, o) else |front|
    {
      FirstAtOfFront(occurrences, o);
    }
  }

  /** The ranked `author_index` of a slot is its position in the author union. */
  lemma {:induction false} AuthorIndexIsPosition(occurrences: seq<SlotKey>, i: nat)
    requires i < |DisplayOrder(occurrences)|
    ensures AuthorIndex(occurrences, DisplayOrder(occurrences)[i]) == i
  {
    var front := occurrences[..|occurrences| - 1];
    var k := DisplayOrder(occurrences)[i];
    var shown := DisplayOrder(front);
    EarlierSlotsOfFront(occurrences, k);
    if i < |shown| {
      assert k == shown[i];
      AuthorIndexIsPosition(front, i);
    } else {
      assert (set o | o in front) == (set o | o in shown);
      SizeOfSequenceSet(shown);
    }
  }

  lemma {:induction false} SizeOfSequenceSet(s: seq<SlotKey>)
    requires NoDuplicates(s)
    ensures |set o | o in s| == |s|
  {
    if s != [] {
      SizeOfSequenceSet(s[1..]);
      assert (set o | o in s) == {s[0]} + set o | o in s[1..];
    }
  }

  /** An `author_index` keeps naming the same slot as the chain grows: later
      posts only append to the author union a claim resolves in. */
  lemma LaterPostsKeepAuthorIndexes(older: Posts, newer: Posts, root: PostId)
    requires DistinctCreation(older) && DistinctCreation(newer) && GrewLater(older, newer)
    requires root in older
    ensures InPosts(newer, [root])
    ensures DisplayOrder(Occurrences(older, Walk(older, [root])))
         <= DisplayOrder(Occurrences(newer, Walk(newer, [root])))
  {
    assert InPosts(older, [root]);
    hide Walk, DistinctCreation, GrewLater, Occurrences, DisplayOrder;
    LaterPostsOnlyExtend(older, newer, [root]);
    SameOccurrences(older, newer, Walk(older, [root]));
    UnionGrows(newer, Walk(older, [root]), Walk(newer, [root]));
  }

  lemma UnionGrows(posts: Posts, before: Path, after: Path)
    requires before <= after && forall i :: 0 <= i < |after| ==> after[i] in posts
    ensures DisplayOrder(Occurrences(posts, before)) <= DisplayOrder(Occurrences(posts, after))
  {
    hide Occurrences, DisplayOrder;
    var more := after[|before|..];
    assert after == before + more;
    OccurrencesSplit(posts, before, more);
    DisplayOrderGrows(Occurrences(posts, before), Occurrences(posts, more));
  }

  lemma {:induction false} SameOccurrences(older: Posts, newer: Posts, chain: Path)
    requires GrewLater(older, newer)
    requires forall i :: 0 <= i < |chain| ==> chain[i] in older
    ensures forall i :: 0 <= i < |chain| ==> chain[i] in newer
    ensures Occurrences(older, chain) == Occurrences(newer, chain)
  {
    if chain != [] {
      SameOccurrences(older, newer, chain[1..]);
    }
  }
}
