/**
 The mutable hierarchy of upload.go: treeMap nodes that own their children, and the
 map of roots.  A ghost index from tree paths to nodes gives its meaning as a Tree.
 */
module TreeMaps {
  import opened PathEscaping
  import opened MergeModel

  class TreeMap {
    var node: Node
    var childDirs: map<string, TreeMap>

    constructor ()
      ensures node == EMPTY_NODE && childDirs == map[]
    {
      node := EMPTY_NODE;
      childDirs := map[];
    }
  }

  lemma SnocInjective(p: Elements, e: string, q: Elements, f: string)
    ensures p + [e] == q + [f] ==> p == q && e == f
  {
    if p + [e] == q + [f] {
      assert p == (p + [e])[..|p|] == (q + [f])[..|q|] == q;
      assert (p + [e])[|p|] == (q + [f])[|q|];
    }
  }

  lemma PrefixesSnoc(p: Elements, e: string)
    ensures Prefixes(p + [e]) == Prefixes(p) + {p + [e]}
  {
    var q := p + [e];
    forall r | r in Prefixes(q)
      ensures r in Prefixes(p) + {q}
    {
      var i :| 0 < i <= |q| && r == q[..i];
      if i <= |p| {
        assert r == p[..i];
      } else {
        assert r == q;
      }
    }
    forall r | r in Prefixes(p) + {q}
      ensures r in Prefixes(q)
    {
      if r != q {
        var i :| 0 < i <= |p| && r == p[..i];
        assert r == q[..i];
      } else {
        assert r == q[..|q|];
      }
    }
  }

  /** Creating the way to a node one step at a time. */
  lemma WithNodeStep(t: Tree, p: Elements, e: string)
    ensures var q, r := p + [e], WithNode(t, p);
      WithNode(t, q) == if q in r then r else r[q := EMPTY_NODE]
  {
    PrefixesSnoc(p, e);
  }

  lemma TakeSnoc(p: Elements, i: nat)
    requires i < |p|
    ensures p[..i + 1] == p[..i] + [p[i]]
  {
  }

  lemma TakeAll(p: Elements)
    ensures p[..|p|] == p
  {
  }

  lemma TakeOne(p: Elements)
    requires p != []
    ensures p[..1] == [p[0]] && [] + [p[0]] == [p[0]]
  {
  }

  lemma WithNoNode(t: Tree)
    ensures WithNode(t, []) == t
  {
    assert Prefixes([]) == {};
  }

  /** Which nodes there are, and which children each of them has. */
  datatype Shape = Shape(
    roots: map<string, TreeMap>,
    index: map<Elements, TreeMap>,
    links: map<Elements, map<string, TreeMap>>)
  {
    ghost predicate Valid() {
      && [] !in index
      && links.Keys == index.Keys
      && Injective() && Rooted() && Linked() && Connected()
    }

    ghost predicate Unused(dir: TreeMap) {
      forall p :: p in index ==> index[p] != dir
    }

    /** Distinct paths have distinct nodes. */
    ghost predicate Injective() {
      forall p, q :: p in index && q in index && index[p] == index[q] ==> p == q
    }

    ghost predicate Rooted() {
      forall e :: (e in roots <==> [e] in index) && (e in roots ==> roots[e] == index[[e]])
    }

    /** A node's children are the nodes one step further. */
    ghost predicate Linked()
      requires links.Keys == index.Keys
    {
      forall p, e :: p in index ==> LinkedAt(p, e)
    }

    ghost predicate LinkedAt(p: Elements, e: string)
      requires links.Keys == index.Keys && p in index
    {
      && (e in links[p] <==> p + [e] in index)
      && (e in links[p] ==> links[p][e] == index[p + [e]])
    }

    ghost predicate Connected() {
      forall p :: p in index && |p| > 1 ==> p[..|p| - 1] in index
    }

    ghost function WithRoot(e: string, dir: TreeMap): Shape {
      Shape(roots[e := dir], index[[e] := dir], links[[e] := map[]])
    }

    ghost function WithChild(p: Elements, e: string, dir: TreeMap): Shape
      requires p in links
    {
      Shape(roots, index[p + [e] := dir], links[p := links[p][e := dir]][p + [e] := map[]])
    }

    lemma WithRootValid(e: string, dir: TreeMap)
      requires Valid() && [e] !in index && Unused(dir)
      ensures WithRoot(e, dir).Valid()
    {
      var s := WithRoot(e, dir);
      forall p, x | p in s.index
        ensures s.LinkedAt(p, x)
      {
        SnocInjective(p, x, [], e);
        assert p in index ==> LinkedAt(p, x);
      }
      assert s.Connected() by {
        assert |[e]| == 1;
      }
    }

    lemma WithChildValid(p: Elements, e: string, dir: TreeMap)
      requires Valid() && p in index && p + [e] !in index && Unused(dir)
      ensures WithChild(p, e, dir).Valid()
    {
      var s, q := WithChild(p, e, dir), p + [e];
      forall r, x | r in s.index
        ensures s.LinkedAt(r, x)
      {
        SnocInjective(r, x, p, e);
        assert r in index ==> LinkedAt(r, x);
      }
      assert q[..|q| - 1] == p;
      assert |q| > 1;
      assert forall x: string :: [x] != q;
    }

    lemma {:induction false} PrefixInIndex(p: Elements, i: nat)
      requires Connected() && p in index && 0 < i <= |p|
      ensures p[..i] in index
      decreases |p|
    {
      if i == |p| {
        assert p[..i] == p;
      } else {
        PrefixInIndex(p[..|p| - 1], i);
        assert p[..|p| - 1][..i] == p[..i];
      }
    }
  }

  class Hierarchy {
    var roots: map<string, TreeMap>
    ghost var shape: Shape
    ghost var model: Tree
    ghost var Repr: set<TreeMap>

    ghost predicate Valid()
      reads this, Repr
    {
      && shape.Valid()
      && shape.roots == roots
      && model.Keys == shape.index.Keys
      && forall p :: p in shape.index ==> Agrees(p, shape.index[p])
    }

    /** The node at `p` is what the ghost state says it is. */
    ghost predicate Agrees(p: Elements, dir: TreeMap)
      reads this, Repr
      requires p in shape.links && p in model
    {
      dir in Repr && dir.node == model[p] && dir.childDirs == shape.links[p]
    }

    /** `dir` is the node at path `p`. */
    ghost predicate IsNode(p: Elements, dir: TreeMap)
      reads this
    {
      p in shape.index && shape.index[p] == dir
    }

    constructor ()
      ensures Valid() && model == map[] && Repr == {}
    {
      roots := map[];
      shape := Shape(map[], map[], map[]);
      model := map[];
      Repr := {};
    }

    lemma ModelPrefixClosed()
      requires Valid()
      ensures PrefixClosed(model)
    {
      forall p, i | p in model && 0 < i <= |p|
        ensures p[..i] in model
      {
        shape.PrefixInIndex(p, i);
      }
    }

    lemma ChildIsNode(p: Elements, dir: TreeMap, e: string)
      requires Valid() && IsNode(p, dir)
      ensures e in dir.childDirs <==> p + [e] in model
      ensures e in dir.childDirs ==> IsNode(p + [e], dir.childDirs[e])
    {
      assert shape.LinkedAt(p, e);
    }

    lemma RootIsNode(e: string)
      requires Valid()
      ensures e in roots <==> [e] in model
      ensures e in roots ==> IsNode([e], roots[e])
    {
    }

    /** Changes the parameters of one node. */
    method SetNode(ghost p: Elements, dir: TreeMap, n: Node)
      requires Valid() && IsNode(p, dir)
      modifies `model, dir`node
      ensures Valid() && Repr == old(Repr) && shape == old(shape)
      ensures model == old(model)[p := n]
    {
      dir.node := n;
      model := model[p := n];
    }

    method AddRoot(e: string) returns (dir: TreeMap)
      requires Valid() && [e] !in model
      modifies this
      ensures Valid() && fresh(dir) && Repr == old(Repr) + {dir}
      ensures IsNode([e], dir)
      ensures model == old(model)[[e] := EMPTY_NODE]
    {
      dir := new TreeMap();
      shape.WithRootValid(e, dir);
      roots := roots[e := dir];
      shape := shape.WithRoot(e, dir);
      model := model[[e] := EMPTY_NODE];
      Repr := Repr + {dir};
    }

    method AddChild(ghost p: Elements, parent: TreeMap, e: string) returns (dir: TreeMap)
      requires Valid() && IsNode(p, parent) && p + [e] !in model
      modifies this, parent`childDirs
      ensures Valid() && fresh(dir) && Repr == old(Repr) + {dir}
      ensures IsNode(p + [e], dir)
      ensures model == old(model)[p + [e] := EMPTY_NODE]
    {
      dir := new TreeMap();
      shape.WithChildValid(p, e, dir);
      parent.childDirs := parent.childDirs[e := dir];
      shape := shape.WithChild(p, e, dir);
      model := model[p + [e] := EMPTY_NODE];
      Repr := Repr + {dir};
      forall r | r in shape.index
        ensures Agrees(r, shape.index[r])
      {
        if r != p + [e] {
          assert r in old(shape.index) && old(Agrees(r, shape.index[r]));
          assert r != p ==> old(shape.index[r]) != parent;
        }
      }
    }

    /** `maybeGetTreeNode`. */
    method MaybeGetTreeNode(pathElements: Elements) returns (dir: TreeMap?)
      requires Valid()
      ensures dir != null <==> pathElements in model
      ensures dir != null ==> IsNode(pathElements, dir)
    {
      if |pathElements| == 0 {
        return null;
      }
      var first := pathElements[0];
      RootIsNode(first);
      dir := if first in roots then roots[first] else null;
      TakeOne(pathElements);
      for i := 1 to |pathElements|
        invariant dir != null <==> pathElements[..i] in model
        invariant dir != null ==> IsNode(pathElements[..i], dir)
      {
        if dir == null {
          StaysMissing(pathElements, i);
          return null;
        }
        var p := pathElements[i];
        TakeSnoc(pathElements, i);
        ChildIsNode(pathElements[..i], dir, p);
        dir := if p in dir.childDirs then dir.childDirs[p] else null;
      }
      TakeAll(pathElements);
    }

    lemma StaysMissing(p: Elements, i: nat)
      requires Valid() && 0 < i <= |p| && p[..i] !in model
      ensures p !in model
    {
      if p in model {
        shape.PrefixInIndex(p, i);
      }
    }

    /** One step of `getTreeNode`: the next node on the way to `path`, created if it is missing. */
    method Descend(ghost before: Tree, path: Elements, i: nat, parent: TreeMap) returns (dir: TreeMap)
      requires Valid() && 0 < i < |path| && IsNode(path[..i], parent)
      requires model == WithNode(before, path[..i])
      modifies this, Repr
      ensures Valid() && fresh(Repr - old(Repr))
      ensures IsNode(path[..i + 1], dir)
      ensures model == WithNode(before, path[..i + 1])
    {
      TakeSnoc(path, i);
      WithNodeStep(before, path[..i], path[i]);
      ChildIsNode(path[..i], parent, path[i]);
      if path[i] in parent.childDirs {
        dir := parent.childDirs[path[i]];
      } else {
        dir := AddChild(path[..i], parent, path[i]);
      }
    }

    /** The first step of `getTreeNode`. */
    method Root(path: Elements) returns (dir: TreeMap)
      requires Valid() && path != []
      modifies this, Repr
      ensures Valid() && fresh(Repr - old(Repr))
      ensures IsNode(path[..1], dir)
      ensures model == WithNode(old(model), path[..1])
    {
      var e := path[0];
      TakeOne(path);
      WithNoNode(model);
      WithNodeStep(model, [], e);
      RootIsNode(e);
      if e in roots {
        dir := roots[e];
      } else {
        dir := AddRoot(e);
      }
    }

    /** `getTreeNode`: missing nodes on the way are created. */
    method GetTreeNode(pathElements: Elements) returns (dir: TreeMap?)
      requires Valid()
      modifies this, Repr
      ensures Valid() && fresh(Repr - old(Repr))
      ensures dir == null <==> pathElements == []
      ensures dir != null ==> IsNode(pathElements, dir)
      ensures model == WithNode(old(model), pathElements)
    {
      if |pathElements| == 0 {
        WithNoNode(model);
        return null;
      }
      ghost var before := model;
      var node := Root(pathElements);
      for i := 1 to |pathElements|
        invariant Valid() && fresh(Repr - old(Repr))
        invariant IsNode(pathElements[..i], node)
        invariant model == WithNode(before, pathElements[..i])
      {
        node := Descend(before, pathElements, i, node);
      }
      TakeAll(pathElements);
      return node;
    }
  }
}
