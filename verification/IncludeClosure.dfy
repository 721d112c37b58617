/**
 `include_closure` of src/cpp/parser/parser.cpp: everything a file reaches through the include
 edges, breadth first, the file itself first.
 */
module IncludeClosure {
  type Edges = map<string, seq<string>>

  predicate Includes(edges: Edges, p: string, q: string) { p in edges && q in edges[p] }

  /** A chain of includes from root to p. */
  ghost predicate Chain(edges: Edges, root: string, chain: seq<string>, p: string) {
    && chain != [] && chain[0] == root && chain[|chain| - 1] == p
    && forall i | 0 <= i < |chain| - 1 :: Includes(edges, chain[i], chain[i + 1])
  }

  ghost predicate Reaches(edges: Edges, root: string, p: string) { exists chain :: Chain(edges, root, chain, p) }

  ghost predicate Distinct(s: seq<string>) { forall i, j | 0 <= i < j < |s| :: s[i] != s[j] }

  /** Every file but the root was found through an includer that stands before it. */
  ghost predicate Found(edges: Edges, found: seq<string>) {
    forall j | 0 < j < |found| :: HasIncluder(edges, found, j)
  }

  ghost predicate HasIncluder(edges: Edges, found: seq<string>, j: nat)
    requires j < |found|
  {
    exists i | 0 <= i < j :: Includes(edges, found[i], found[j])
  }

  /** Everything the first n files include has been found. */
  ghost predicate Expanded(edges: Edges, found: seq<string>, n: nat)
    requires n <= |found|
  {
    forall i, q | 0 <= i < n && Includes(edges, found[i], q) :: q in found
  }

  /** Every file that can ever be found. */
  ghost function Universe(edges: Edges, root: string): set<string> {
    {root} + set p, q | p in edges && q in edges[p] :: q
  }

  method Closure(edges: Edges, root: string) returns (found: seq<string>)
    ensures found != [] && found[0] == root
    ensures Distinct(found) && Found(edges, found)
    ensures forall p :: p in found <==> Reaches(edges, root, p)
  {
    hide Found, Expanded, Includes, Reaches;
    FoundStart(edges, root);
    found := [root];
    var visited := {root};
    ghost var all := Universe(edges, root);
    var i := 0;
    while i < |found|
      invariant i <= |found| && found != [] && found[0] == root
      invariant Distinct(found) && Found(edges, found)
      invariant (forall p :: p in found <==> p in visited) && visited <= all
      invariant Expanded(edges, found, i)
      decreases all - visited, |found| - i
    {
      var p := found[i];
      if p in edges {
        found, visited := Expand(edges, root, found, visited, i);
      } else {
        NothingToExpand(edges, found, i);
      }
      i := i + 1;
    }
    forall p ensures p in found <==> Reaches(edges, root, p) {
      FoundExactlyReached(edges, root, found, p);
    }
  }

  lemma FoundExactlyReached(edges: Edges, root: string, found: seq<string>, p: string)
    requires found != [] && found[0] == root && Found(edges, found) && Expanded(edges, found, |found|)
    ensures p in found <==> Reaches(edges, root, p)
  {
    if p in found {
      var k :| 0 <= k < |found| && found[k] == p;
      FoundIsReached(edges, root, found, k);
    }
    if chain :| Chain(edges, root, chain, p) {
      ReachedIsFound(edges, root, found, chain, p);
    }
  }

  lemma NothingToExpand(edges: Edges, found: seq<string>, i: nat)
    requires i < |found| && Expanded(edges, found, i) && found[i] !in edges
    ensures Expanded(edges, found, i + 1)
  {
  }

  lemma ExpandedNow(edges: Edges, found0: seq<string>, found: seq<string>, i: nat)
    requires i < |found0| && found0 <= found && Expanded(edges, found0, i)
    requires found0[i] in edges && forall q <- edges[found0[i]] :: q in found
    ensures Expanded(edges, found, i + 1)
  {
    forall k, q | 0 <= k < i + 1 && Includes(edges, found[k], q) ensures q in found {
      assert found[k] == found0[k];
      assert k < i ==> q in found0;
    }
  }

  /** The inner loop: the unvisited includes of file i are appended. */
  method Expand(edges: Edges, ghost root: string, found0: seq<string>, visited0: set<string>, i: nat)
    returns (found: seq<string>, visited: set<string>)
    requires i < |found0| && found0[i] in edges && Distinct(found0) && Found(edges, found0)
    requires (forall p :: p in found0 <==> p in visited0) && visited0 <= Universe(edges, root)
    requires Expanded(edges, found0, i)
    ensures found0 <= found && Distinct(found) && Found(edges, found)
    ensures (forall p :: p in found <==> p in visited) && visited0 <= visited <= Universe(edges, root)
    ensures visited == visited0 ==> found == found0
    ensures Expanded(edges, found, i + 1)
  {
    hide Found, Expanded, Includes, Distinct;
    found, visited := found0, visited0;
    var p := found0[i];
    for k := 0 to |edges[p]|
      invariant found0 <= found && Distinct(found) && Found(edges, found)
      invariant (forall p :: p in found <==> p in visited) && visited0 <= visited <= Universe(edges, root)
      invariant visited == visited0 ==> found == found0
      invariant forall j | 0 <= j < k :: edges[p][j] in found
    {
      var next := edges[p][k];
      if next !in visited {
        FoundAdd(edges, found, next, i);
        DistinctAdd(found, next);
        visited := visited + {next};
        found := found + [next];
      }
    }
    ExpandedNow(edges, found0, found, i);
  }

  lemma DistinctAdd(s: seq<string>, x: string)
    requires Distinct(s) && x !in s
    ensures Distinct(s + [x])
  {
  }

  lemma FoundAdd(edges: Edges, found: seq<string>, next: string, i: nat)
    requires Found(edges, found) && i < |found| && found[i] in edges && next in edges[found[i]]
    ensures Found(edges, found + [next])
  {
    var found' := found + [next];
    forall j | 0 < j < |found'| ensures HasIncluder(edges, found', j) {
      if j < |found| {
        assert HasIncluder(edges, found, j);
        var h :| 0 <= h < j && Includes(edges, found[h], found[j]);
        assert Includes(edges, found'[h], found'[j]);
      } else {
        assert Includes(edges, found'[i], found'[j]);
      }
    }
  }

  lemma FoundStart(edges: Edges, root: string)
    ensures Found(edges, [root]) && Expanded(edges, [root], 0)
  {
  }

  lemma {:induction false} FoundIsReached(edges: Edges, root: string, found: seq<string>, k: nat)
    requires k < |found| && found[0] == root && Found(edges, found)
    ensures Reaches(edges, root, found[k])
  {
    if k == 0 {
      assert Chain(edges, root, [root], root);
    } else {
      assert HasIncluder(edges, found, k);
      var i :| 0 <= i < k && Includes(edges, found[i], found[k]);
      FoundIsReached(edges, root, found, i);
      var chain :| Chain(edges, root, chain, found[i]);
      assert Chain(edges, root, chain + [found[k]], found[k]);
    }
  }

  lemma {:induction false} ReachedIsFound(edges: Edges, root: string, found: seq<string>, chain: seq<string>, p: string)
    requires root in found && Expanded(edges, found, |found|) && Chain(edges, root, chain, p)
    ensures p in found
  {
    if |chain| > 1 {
      var init := chain[..|chain| - 1];
      assert Chain(edges, root, init, init[|init| - 1]);
      ReachedIsFound(edges, root, found, init, init[|init| - 1]);
      assert Includes(edges, chain[|chain| - 2], chain[|chain| - 1]);
    }
  }
}
