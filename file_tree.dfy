/**
 * The project-demo modal's file tree (src/components/ProjectDemo/ProjectDemo.tsx):
 * the `FileNode` record and the two recursive rewrites `setChildrenAtPath`
 * and `injectContent`, which rebuild the tree by path.
 */
module FileTree {
  import opened Wrappers

  datatype Kind = Folder | File

  /**
   * One entry of the tree. `content` and `children` are optional as in the
   * source (`children` has its own datatype so that recursion through it
   * terminates by structural inclusion); `loaded` is only ever tested for
   * truthiness, so its `undefined` is the same as `false`.
   */
  datatype FileNode = FileNode(
    name: string,
    kind: Kind,
    path: string,
    content: Option<string>,
    children: Subtree,
    loaded: bool)

  /** `children?: FileNode[]`: absent, or an array (possibly empty, which is still truthy). */
  datatype Subtree = NoChildren | Children(nodes: seq<FileNode>)

  /** A folder the rewrites descend into: `n.type === 'folder' && n.children`. */
  predicate HasSubtree(n: FileNode)
  {
    n.kind == Folder && n.children.Children?
  }

  /** Every field but `children` and `loaded` agrees. */
  predicate SameEntry(a: FileNode, b: FileNode)
  {
    a.name == b.name && a.kind == b.kind && a.path == b.path && a.content == b.content
  }

  /**
   * `setChildrenAtPath`: every node whose path is `target` gets exactly
   * `children` and `loaded = true` (and is not descended into); every other
   * folder with children is rebuilt recursively; everything else is kept.
   */
  function SetChildrenAtPath(nodes: seq<FileNode>, target: string, children: seq<FileNode>): (r: seq<FileNode>)
    decreases nodes
    ensures |r| == |nodes|
    ensures forall i :: 0 <= i < |nodes| ==> SameEntry(r[i], nodes[i])
    ensures forall i :: 0 <= i < |nodes| ==> r[i].loaded == (nodes[i].loaded || nodes[i].path == target)
    ensures forall i :: 0 <= i < |nodes| && nodes[i].path == target ==> r[i].children == Children(children)
    ensures forall i :: 0 <= i < |nodes| && nodes[i].path != target ==>
              (r[i].children.Children? <==> nodes[i].children.Children?)
    ensures forall i :: 0 <= i < |nodes| && nodes[i].path != target && !HasSubtree(nodes[i]) ==> r[i] == nodes[i]
  {
    if nodes == [] then []
    else
      var n := nodes[0];
      var n' :=
        if n.path == target then n.(children := Children(children), loaded := true)
        else if HasSubtree(n) then
          assert n.children < n;
          n.(children := Children(SetChildrenAtPath(n.children.nodes, target, children)))
        else n;
      var rest := SetChildrenAtPath(nodes[1..], target, children);
      assert forall i :: 1 <= i < |nodes| ==> ([n'] + rest)[i] == rest[i - 1] && nodes[i] == nodes[1..][i - 1];
      [n'] + rest
  }

  /**
   * `injectContent`: every node whose path is `target` gets `content` (and is
   * not descended into); every other folder with children is rebuilt
   * recursively; everything else is kept.
   */
  function InjectContent(nodes: seq<FileNode>, target: string, content: string): (r: seq<FileNode>)
    decreases nodes
    ensures |r| == |nodes|
    ensures forall i :: 0 <= i < |nodes| ==>
              r[i].name == nodes[i].name && r[i].kind == nodes[i].kind &&
              r[i].path == nodes[i].path && r[i].loaded == nodes[i].loaded
    ensures forall i :: 0 <= i < |nodes| ==>
              r[i].content == if nodes[i].path == target then Some(content) else nodes[i].content
    ensures forall i :: 0 <= i < |nodes| ==> (r[i].children.Children? <==> nodes[i].children.Children?)
    ensures forall i :: 0 <= i < |nodes| && (nodes[i].path == target || !HasSubtree(nodes[i])) ==>
              r[i].children == nodes[i].children
  {
    if nodes == [] then []
    else
      var n := nodes[0];
      var n' :=
        if n.path == target then n.(content := Some(content))
        else if HasSubtree(n) then
          assert n.children < n;
          n.(children := Children(InjectContent(n.children.nodes, target, content)))
        else n;
      var rest := InjectContent(nodes[1..], target, content);
      assert forall i :: 1 <= i < |nodes| ==> ([n'] + rest)[i] == rest[i - 1] && nodes[i] == nodes[1..][i - 1];
      [n'] + rest
  }

  // ----- Queries over the tree, used to state what the rewrites do -----

  /** Some node reached by the rewrites' traversal has path `p`. */
  predicate Occurs(nodes: seq<FileNode>, p: string)
    decreases nodes
  {
    nodes != [] &&
    (nodes[0].path == p ||
     (HasSubtree(nodes[0]) && (assert nodes[0].children < nodes[0]; Occurs(nodes[0].children.nodes, p))) ||
     Occurs(nodes[1..], p))
  }

  /** The first node with path `p` in the rewrites' pre-order traversal. */
  function Find(nodes: seq<FileNode>, p: string): (r: Option<FileNode>)
    decreases nodes
    ensures r.Some? ==> r.value.path == p
  {
    if nodes == [] then None
    else if nodes[0].path == p then Some(nodes[0])
    else if HasSubtree(nodes[0]) && (assert nodes[0].children < nodes[0]; Find(nodes[0].children.nodes, p).Some?)
    then Find(nodes[0].children.nodes, p)
    else Find(nodes[1..], p)
  }

  /** The tree with every `content` dropped, at every depth. */
  function Erase(nodes: seq<FileNode>): (r: seq<FileNode>)
    decreases nodes
    ensures |r| == |nodes|
  {
    if nodes == [] then []
    else
      var n := nodes[0];
      var kids := if n.children.Children? then (assert n.children < n; Children(Erase(n.children.nodes))) else NoChildren;
      [n.(content := None, children := kids)] + Erase(nodes[1..])
  }

  /** Files never carry children, at any depth. */
  predicate WellFormed(nodes: seq<FileNode>)
    decreases nodes
  {
    nodes == [] ||
    ((nodes[0].kind == File ==> nodes[0].children == NoChildren) &&
     (nodes[0].children.Children? ==> (assert nodes[0].children < nodes[0]; WellFormed(nodes[0].children.nodes))) &&
     WellFormed(nodes[1..]))
  }

  /** No node reached by the traversal with path `p` is a file. */
  predicate NoFileAt(nodes: seq<FileNode>, p: string)
    decreases nodes
  {
    nodes == [] ||
    ((nodes[0].path == p ==> nodes[0].kind == Folder) &&
     (HasSubtree(nodes[0]) ==> (assert nodes[0].children < nodes[0]; NoFileAt(nodes[0].children.nodes, p))) &&
     NoFileAt(nodes[1..], p))
  }

  /** What a found node looks like once its children have been set. */
  function MarkLoaded(o: Option<FileNode>, children: seq<FileNode>): Option<FileNode>
  {
    match o
    case None => None
    case Some(n) => Some(n.(children := Children(children), loaded := true))
  }

  /** What a found node looks like once its content has been injected. */
  function WithContent(o: Option<FileNode>, content: string): Option<FileNode>
  {
    match o
    case None => None
    case Some(n) => Some(n.(content := Some(content)))
  }

  /**
   * The tree with what `setChildrenAtPath` may change forgotten: a node at
   * the target keeps everything but its children and `loaded`, every other
   * folder with children is projected recursively, everything else is kept.
   */
  function Skeleton(nodes: seq<FileNode>, target: string): (r: seq<FileNode>)
    decreases nodes
    ensures |r| == |nodes|
  {
    if nodes == [] then []
    else
      var n := nodes[0];
      var n' :=
        if n.path == target then n.(children := NoChildren, loaded := false)
        else if HasSubtree(n) then
          assert n.children < n;
          n.(children := Children(Skeleton(n.children.nodes, target)))
        else n;
      [n'] + Skeleton(nodes[1..], target)
  }

  /** Every node at the target reached by the traversal has exactly `children` and is loaded. */
  predicate ChildrenSetAt(nodes: seq<FileNode>, target: string, children: seq<FileNode>)
    decreases nodes
  {
    nodes == [] ||
    ((nodes[0].path == target ==> nodes[0].children == Children(children) && nodes[0].loaded) &&
     (nodes[0].path != target && HasSubtree(nodes[0]) ==>
        (assert nodes[0].children < nodes[0]; ChildrenSetAt(nodes[0].children.nodes, target, children))) &&
     ChildrenSetAt(nodes[1..], target, children))
  }

  /**
   * The tree with what `injectContent` may change forgotten: a node at the
   * target loses its content (its subtree is kept as it is), every other
   * folder with children is projected recursively, everything else is kept.
   */
  function ContentSkeleton(nodes: seq<FileNode>, target: string): (r: seq<FileNode>)
    decreases nodes
    ensures |r| == |nodes|
  {
    if nodes == [] then []
    else
      var n := nodes[0];
      var n' :=
        if n.path == target then n.(content := None)
        else if HasSubtree(n) then
          assert n.children < n;
          n.(children := Children(ContentSkeleton(n.children.nodes, target)))
        else n;
      [n'] + ContentSkeleton(nodes[1..], target)
  }

  /** Every node at the target reached by the traversal holds exactly `content`. */
  predicate ContentSetAt(nodes: seq<FileNode>, target: string, content: string)
    decreases nodes
  {
    nodes == [] ||
    ((nodes[0].path == target ==> nodes[0].content == Some(content)) &&
     (nodes[0].path != target && HasSubtree(nodes[0]) ==>
        (assert nodes[0].children < nodes[0]; ContentSetAt(nodes[0].children.nodes, target, content))) &&
     ContentSetAt(nodes[1..], target, content))
  }

  // ----- setChildrenAtPath -----

  /** An absent target leaves the tree unchanged. */
  lemma {:induction false} SetChildrenAbsent(nodes: seq<FileNode>, target: string, children: seq<FileNode>)
    requires !Occurs(nodes, target)
    ensures SetChildrenAtPath(nodes, target, children) == nodes
    decreases nodes
  {
    if nodes != [] {
      var n := nodes[0];
      if HasSubtree(n) {
        assert n.children < n;
        SetChildrenAbsent(n.children.nodes, target, children);
      }
      SetChildrenAbsent(nodes[1..], target, children);
    }
  }

  /** Applying the update twice is the same as applying it once. */
  lemma {:induction false} SetChildrenIdempotent(nodes: seq<FileNode>, target: string, children: seq<FileNode>)
    ensures SetChildrenAtPath(SetChildrenAtPath(nodes, target, children), target, children)
         == SetChildrenAtPath(nodes, target, children)
    decreases nodes
  {
    if nodes != [] {
      var n := nodes[0];
      var r := SetChildrenAtPath(nodes, target, children);
      if n.path != target && HasSubtree(n) {
        assert n.children < n;
        SetChildrenIdempotent(n.children.nodes, target, children);
      }
      SetChildrenIdempotent(nodes[1..], target, children);
      assert r[1..] == SetChildrenAtPath(nodes[1..], target, children);
    }
  }

  /** The first node found at the target is now loaded with exactly the given children. */
  lemma {:induction false} SetChildrenFind(nodes: seq<FileNode>, target: string, children: seq<FileNode>)
    ensures Find(SetChildrenAtPath(nodes, target, children), target) == MarkLoaded(Find(nodes, target), children)
    decreases nodes
  {
    if nodes != [] {
      var n := nodes[0];
      var r := SetChildrenAtPath(nodes, target, children);
      assert r[1..] == SetChildrenAtPath(nodes[1..], target, children);
      if n.path != target {
        if HasSubtree(n) {
          assert n.children < n;
          SetChildrenFind(n.children.nodes, target, children);
        }
        SetChildrenFind(nodes[1..], target, children);
      }
    }
  }

  /** The rewrite changes nothing but the children and `loaded` of target nodes, at any depth. */
  lemma {:induction false} SetChildrenFrame(nodes: seq<FileNode>, target: string, children: seq<FileNode>)
    ensures Skeleton(SetChildrenAtPath(nodes, target, children), target) == Skeleton(nodes, target)
    decreases nodes
  {
    if nodes != [] {
      var n := nodes[0];
      var r := SetChildrenAtPath(nodes, target, children);
      assert r[1..] == SetChildrenAtPath(nodes[1..], target, children);
      if n.path != target && HasSubtree(n) {
        assert n.children < n;
        SetChildrenFrame(n.children.nodes, target, children);
      }
      SetChildrenFrame(nodes[1..], target, children);
    }
  }

  /** Every target node the traversal reaches, not only the first, gets the children and `loaded`. */
  lemma {:induction false} SetChildrenReachesAll(nodes: seq<FileNode>, target: string, children: seq<FileNode>)
    ensures ChildrenSetAt(SetChildrenAtPath(nodes, target, children), target, children)
    decreases nodes
  {
    if nodes != [] {
      var n := nodes[0];
      var r := SetChildrenAtPath(nodes, target, children);
      assert r[1..] == SetChildrenAtPath(nodes[1..], target, children);
      if n.path != target && HasSubtree(n) {
        assert n.children < n;
        SetChildrenReachesAll(n.children.nodes, target, children);
      }
      SetChildrenReachesAll(nodes[1..], target, children);
    }
  }

  /**
   * The two facts above pin the rewrite down: any tree with the same
   * skeleton whose target nodes all carry the children is the rewrite's result.
   */
  lemma {:induction false} SetChildrenUnique(nodes: seq<FileNode>, target: string, children: seq<FileNode>, r: seq<FileNode>)
    requires Skeleton(r, target) == Skeleton(nodes, target)
    requires ChildrenSetAt(r, target, children)
    ensures r == SetChildrenAtPath(nodes, target, children)
    decreases nodes
  {
    var s := SetChildrenAtPath(nodes, target, children);
    SetChildrenFrame(nodes, target, children);
    SetChildrenReachesAll(nodes, target, children);
    SkeletonDetermines(r, s, target, children);
  }

  /** Two trees with one skeleton whose target nodes carry the same children are equal. */
  lemma {:induction false} SkeletonDetermines(a: seq<FileNode>, b: seq<FileNode>, target: string, children: seq<FileNode>)
    requires Skeleton(a, target) == Skeleton(b, target)
    requires ChildrenSetAt(a, target, children) && ChildrenSetAt(b, target, children)
    ensures a == b
    decreases a
  {
    if a != [] {
      var x, y := a[0], b[0];
      assert Skeleton(a, target)[0] == Skeleton(b, target)[0];
      assert Skeleton(a, target)[1..] == Skeleton(a[1..], target);
      assert Skeleton(b, target)[1..] == Skeleton(b[1..], target);
      if x.path != target && HasSubtree(x) {
        assert x.children < x;
        assert HasSubtree(y);
        SkeletonDetermines(x.children.nodes, y.children.nodes, target, children);
      }
      SkeletonDetermines(a[1..], b[1..], target, children);
      assert a == [x] + a[1..] && b == [y] + b[1..];
    }
  }

  /** The rewrite keeps "files have no children" when the target is not a file. */
  lemma {:induction false} SetChildrenWellFormed(nodes: seq<FileNode>, target: string, children: seq<FileNode>)
    requires WellFormed(nodes) && WellFormed(children) && NoFileAt(nodes, target)
    ensures WellFormed(SetChildrenAtPath(nodes, target, children))
    decreases nodes
  {
    if nodes != [] {
      var n := nodes[0];
      var r := SetChildrenAtPath(nodes, target, children);
      assert r[1..] == SetChildrenAtPath(nodes[1..], target, children);
      if n.path != target && HasSubtree(n) {
        assert n.children < n;
        SetChildrenWellFormed(n.children.nodes, target, children);
      }
      SetChildrenWellFormed(nodes[1..], target, children);
    }
  }

  // ----- injectContent -----

  /** An absent target leaves the tree unchanged. */
  lemma {:induction false} InjectContentAbsent(nodes: seq<FileNode>, target: string, content: string)
    requires !Occurs(nodes, target)
    ensures InjectContent(nodes, target, content) == nodes
    decreases nodes
  {
    if nodes != [] {
      var n := nodes[0];
      if HasSubtree(n) {
        assert n.children < n;
        InjectContentAbsent(n.children.nodes, target, content);
      }
      InjectContentAbsent(nodes[1..], target, content);
    }
  }

  /** Injecting the same content twice is the same as injecting it once. */
  lemma {:induction false} InjectContentIdempotent(nodes: seq<FileNode>, target: string, content: string)
    ensures InjectContent(InjectContent(nodes, target, content), target, content)
         == InjectContent(nodes, target, content)
    decreases nodes
  {
    if nodes != [] {
      var n := nodes[0];
      var r := InjectContent(nodes, target, content);
      if n.path != target && HasSubtree(n) {
        assert n.children < n;
        InjectContentIdempotent(n.children.nodes, target, content);
      }
      InjectContentIdempotent(nodes[1..], target, content);
      assert r[1..] == InjectContent(nodes[1..], target, content);
    }
  }

  /** The first node found at the target now carries the content. */
  lemma {:induction false} InjectContentFind(nodes: seq<FileNode>, target: string, content: string)
    ensures Find(InjectContent(nodes, target, content), target) == WithContent(Find(nodes, target), content)
    decreases nodes
  {
    if nodes != [] {
      var n := nodes[0];
      var r := InjectContent(nodes, target, content);
      assert r[1..] == InjectContent(nodes[1..], target, content);
      if n.path != target {
        if HasSubtree(n) {
          assert n.children < n;
          InjectContentFind(n.children.nodes, target, content);
        }
        InjectContentFind(nodes[1..], target, content);
      }
    }
  }

  /** Injecting content changes nothing but `content`, at any depth. */
  lemma {:induction false} InjectContentOnlyContent(nodes: seq<FileNode>, target: string, content: string)
    ensures Erase(InjectContent(nodes, target, content)) == Erase(nodes)
    decreases nodes
  {
    if nodes != [] {
      var n := nodes[0];
      var r := InjectContent(nodes, target, content);
      assert r[1..] == InjectContent(nodes[1..], target, content);
      if n.path != target && HasSubtree(n) {
        assert n.children < n;
        InjectContentOnlyContent(n.children.nodes, target, content);
      }
      InjectContentOnlyContent(nodes[1..], target, content);
    }
  }

  /** Injecting content changes nothing but the content of target nodes, at any depth. */
  lemma {:induction false} InjectContentFrame(nodes: seq<FileNode>, target: string, content: string)
    ensures ContentSkeleton(InjectContent(nodes, target, content), target) == ContentSkeleton(nodes, target)
    decreases nodes
  {
    if nodes != [] {
      var n := nodes[0];
      var r := InjectContent(nodes, target, content);
      assert r[1..] == InjectContent(nodes[1..], target, content);
      if n.path != target && HasSubtree(n) {
        assert n.children < n;
        InjectContentFrame(n.children.nodes, target, content);
      }
      InjectContentFrame(nodes[1..], target, content);
    }
  }

  /** Every target node the traversal reaches, not only the first, gets the content. */
  lemma {:induction false} InjectContentReachesAll(nodes: seq<FileNode>, target: string, content: string)
    ensures ContentSetAt(InjectContent(nodes, target, content), target, content)
    decreases nodes
  {
    if nodes != [] {
      var n := nodes[0];
      var r := InjectContent(nodes, target, content);
      assert r[1..] == InjectContent(nodes[1..], target, content);
      if n.path != target && HasSubtree(n) {
        assert n.children < n;
        InjectContentReachesAll(n.children.nodes, target, content);
      }
      InjectContentReachesAll(nodes[1..], target, content);
    }
  }

  /**
   * The two facts above pin the rewrite down: any tree with the same content
   * skeleton whose target nodes all hold the content is the rewrite's result.
   */
  lemma {:induction false} InjectContentUnique(nodes: seq<FileNode>, target: string, content: string, r: seq<FileNode>)
    requires ContentSkeleton(r, target) == ContentSkeleton(nodes, target)
    requires ContentSetAt(r, target, content)
    ensures r == InjectContent(nodes, target, content)
    decreases nodes
  {
    var s := InjectContent(nodes, target, content);
    InjectContentFrame(nodes, target, content);
    InjectContentReachesAll(nodes, target, content);
    ContentSkeletonDetermines(r, s, target, content);
  }

  /** Two trees with one content skeleton whose target nodes hold the same content are equal. */
  lemma {:induction false} ContentSkeletonDetermines(a: seq<FileNode>, b: seq<FileNode>, target: string, content: string)
    requires ContentSkeleton(a, target) == ContentSkeleton(b, target)
    requires ContentSetAt(a, target, content) && ContentSetAt(b, target, content)
    ensures a == b
    decreases a
  {
    if a != [] {
      var x, y := a[0], b[0];
      assert ContentSkeleton(a, target)[0] == ContentSkeleton(b, target)[0];
      assert ContentSkeleton(a, target)[1..] == ContentSkeleton(a[1..], target);
      assert ContentSkeleton(b, target)[1..] == ContentSkeleton(b[1..], target);
      if x.path != target && HasSubtree(x) {
        assert x.children < x;
        assert HasSubtree(y);
        ContentSkeletonDetermines(x.children.nodes, y.children.nodes, target, content);
      }
      ContentSkeletonDetermines(a[1..], b[1..], target, content);
      assert a == [x] + a[1..] && b == [y] + b[1..];
    }
  }

  /** Injecting content keeps "files have no children". */
  lemma {:induction false} InjectContentWellFormed(nodes: seq<FileNode>, target: string, content: string)
    requires WellFormed(nodes)
    ensures WellFormed(InjectContent(nodes, target, content))
    decreases nodes
  {
    if nodes != [] {
      var n := nodes[0];
      var r := InjectContent(nodes, target, content);
      assert r[1..] == InjectContent(nodes[1..], target, content);
      if n.path != target && HasSubtree(n) {
        assert n.children < n;
        InjectContentWellFormed(n.children.nodes, target, content);
      }
      InjectContentWellFormed(nodes[1..], target, content);
    }
  }
}
