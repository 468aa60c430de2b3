/** The closure of script references below a workflow (sources). */
module ProofSources {
  import opened Wrappers

  /** An existing file: the script paths its text mentions, and whether its path
      may be read (relative, without `..`, inside the repository). */
  datatype File = File(refs: seq<string>, readable: bool)

  type Tree = map<string, File>

  ghost predicate IsPath(tree: Tree, path: seq<string>) {
    && path != [] && (forall i :: 0 <= i < |path| ==> path[i] in tree)
    && forall i :: 0 <= i < |path| - 1 ==> path[i + 1] in tree[path[i]].refs
  }

  /** An existing file that literal references lead to. */
  ghost predicate Reachable(tree: Tree, start: string, target: string) {
    exists path :: IsPath(tree, path) && path[0] == start && path[|path| - 1] == target
  }

  ghost predicate Closed(tree: Tree, found: set<string>, pending: seq<string>) {
    forall p, ref :: p in found && p in tree && ref in tree[p].refs && ref in tree ==> ref in found || ref in pending
  }

  lemma ReachableStep(tree: Tree, start: string, p: string, ref: string)
    requires Reachable(tree, start, p) && ref in tree && p in tree && ref in tree[p].refs
    ensures Reachable(tree, start, ref)
  {
    var path :| IsPath(tree, path) && path[0] == start && path[|path| - 1] == p;
    var longer := path + [ref];
    assert IsPath(tree, longer) && longer[0] == start && longer[|longer| - 1] == ref;
  }

  lemma ReachableStart(tree: Tree, start: string)
    requires start in tree
    ensures Reachable(tree, start, start)
  {
    assert IsPath(tree, [start]) && [start][0] == start && [start][|[start]| - 1] == start;
  }

  /** A closed set with the start has everything along every path. */
  lemma {:induction false} PathStaysInside(tree: Tree, found: set<string>, path: seq<string>)
    requires IsPath(tree, path) && path[0] in found && Closed(tree, found, [])
    ensures path[|path| - 1] in found
    decreases |path|
  {
    if |path| > 1 {
      assert path[1] in tree[path[0]].refs && path[1] in found;
      assert IsPath(tree, path[1..]);
      PathStaysInside(tree, found, path[1..]);
    }
  }

  /** sources: it ends on every finite reference graph, cyclic or not. It
      succeeds exactly when the workflow and every file it reaches may be read,
      and then it has found exactly the reachable files. */
  method Sources(tree: Tree, workflow: string) returns (r: Option<set<string>>)
    ensures r.Some? <==> workflow in tree && forall p :: Reachable(tree, workflow, p) ==> p in tree && tree[p].readable
    ensures r.Some? ==> forall p :: p in r.value <==> Reachable(tree, workflow, p)
  {
    if workflow !in tree {
      return None;
    }
    ReachableStart(tree, workflow);
    var pending := [workflow];
    var found: set<string> := {};
    while pending != []
      invariant forall p :: p in pending ==> p in tree && Reachable(tree, workflow, p)
      invariant forall p :: p in found ==> p in tree && tree[p].readable && Reachable(tree, workflow, p)
      invariant Closed(tree, found, pending)
      invariant workflow in found || workflow in pending
      decreases tree.Keys - found, |pending|
    {
      var n := |pending| - 1;
      var path := pending[n];
      assert pending == pending[..n] + [path];
      ghost var before := pending;
      pending := pending[..n];
      if path !in found {
        if !tree[path].readable {
          return None;
        }
        found := found + {path};
        var refs := tree[path].refs;
        var i := 0;
        while i < |refs|
          invariant 0 <= i <= |refs|
          invariant forall p :: p in pending ==> p in tree && Reachable(tree, workflow, p)
          invariant forall p :: p in before && p != path ==> p in pending
          invariant forall ref :: ref in refs[..i] && ref in tree ==> ref in found || ref in pending
        {
          assert refs[..i + 1] == refs[..i] + [refs[i]];
          if refs[i] in tree && refs[i] !in found {
            ReachableStep(tree, workflow, path, refs[i]);
            pending := pending + [refs[i]];
          }
          i := i + 1;
        }
        assert refs[..i] == refs;
      }
    }
    forall p | Reachable(tree, workflow, p) ensures p in found {
      var path :| IsPath(tree, path) && path[0] == workflow && path[|path| - 1] == p;
      PathStaysInside(tree, found, path);
    }
    r := Some(found);
  }
}
