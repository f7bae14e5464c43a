/**
 * `loadFolderContents` of the project-demo modal
 * (src/components/ProjectDemo/ProjectDemo.tsx): one reply of the GitHub
 * contents API becomes the nodes of one folder level, folders first and
 * each group in case-insensitive name order.
 */
module Listing {
  import opened Wrappers
  import opened Text
  import opened FileTree

  /** One item of the contents API's array: its `name` and its `type`. */
  datatype Entry = Entry(name: string, entryType: string)

  /** The reply to the listing request, as `fetchJson` sees it. */
  datatype ListingReply =
    | NotOk          // `!res.ok`: `fetchJson` throws
    | NotArray       // a JSON value that is not an array
    | Items(entries: seq<Entry>)

  /** The repository a request goes to. */
  datatype RepoCtx = RepoCtx(owner: string, repo: string, branch: string)

  /** Only `dir` and `file` items are listed (symlinks and submodules are dropped). */
  predicate Kept(e: Entry)
  {
    e.entryType == "dir" || e.entryType == "file"
  }

  /** A child's path: its name at the root, `path/name` below it. */
  function JoinPath(path: string, name: string): (r: string)
    ensures path == "" ==> r == name
    ensures path != "" ==> StartsWith(r, path + "/") && r[|path| + 1..] == name
  {
    if path == "" then name else path + "/" + name
  }

  /** The node one kept item becomes: a folder not yet loaded with an empty child array, or a loaded file. */
  function ToNode(path: string, e: Entry): FileNode
  {
    var isDir := e.entryType == "dir";
    FileNode(e.name, if isDir then Folder else File, JoinPath(path, e.name), None,
             if isDir then Children([]) else NoChildren, !isDir)
  }

  /** `list.filter(..).map(..)`, in listing order. */
  function MapListing(path: string, items: seq<Entry>): (r: seq<FileNode>)
    ensures |r| <= |items|
  {
    if items == [] then []
    else if Kept(items[0]) then [ToNode(path, items[0])] + MapListing(path, items[1..])
    else MapListing(path, items[1..])
  }

  // ----- The comparator and the sort -----

  /**
   * The comparator's "not after": a folder before a file; within one kind,
   * by lower-cased name, equal names comparing as 0.
   */
  predicate NodeLe(a: FileNode, b: FileNode)
  {
    if a.kind != b.kind then a.kind == Folder else LexLe(Lower(a.name), Lower(b.name))
  }

  lemma NodeLeTotal(a: FileNode, b: FileNode)
    ensures NodeLe(a, b) || NodeLe(b, a)
  {
    LexLeTotal(Lower(a.name), Lower(b.name));
  }

  lemma NodeLeTrans(a: FileNode, b: FileNode, c: FileNode)
    requires NodeLe(a, b) && NodeLe(b, c)
    ensures NodeLe(a, c)
  {
    if a.kind == b.kind == c.kind {
      LexLeTrans(Lower(a.name), Lower(b.name), Lower(c.name));
    }
  }

  predicate Sorted(s: seq<FileNode>)
  {
    forall i, j :: 0 <= i < j < |s| ==> NodeLe(s[i], s[j])
  }

  /** Puts `x` after the last element of `s` it does not precede (the stable position in a sorted `s`). */
  function Insert(s: seq<FileNode>, x: FileNode): (r: seq<FileNode>)
    ensures |r| == |s| + 1
  {
    if s == [] then [x]
    else if NodeLe(s[|s| - 1], x) then s + [x]
    else Insert(s[..|s| - 1], x) + [s[|s| - 1]]
  }

  /** `nodes.sort(comparator)`: a stable insertion sort. */
  function SortNodes(s: seq<FileNode>): (r: seq<FileNode>)
    ensures |r| == |s|
  {
    if s == [] then [] else Insert(SortNodes(s[..|s| - 1]), s[|s| - 1])
  }

  lemma {:induction false} InsertPermutes(s: seq<FileNode>, x: FileNode)
    ensures multiset(Insert(s, x)) == multiset(s) + multiset{x}
  {
    if s != [] {
      var init, last := s[..|s| - 1], s[|s| - 1];
      assert s == init + [last];
      if !NodeLe(last, x) {
        InsertPermutes(init, x);
      }
    }
  }

  lemma {:induction false} InsertSorted(s: seq<FileNode>, x: FileNode)
    requires Sorted(s)
    ensures Sorted(Insert(s, x))
  {
    if s != [] {
      var init, last := s[..|s| - 1], s[|s| - 1];
      if NodeLe(last, x) {
        forall i | 0 <= i < |s| ensures NodeLe(s[i], x) {
          if i < |s| - 1 { NodeLeTrans(s[i], last, x); }
        }
      } else {
        NodeLeTotal(last, x);
        InsertSorted(init, x);
        InsertPermutes(init, x);
        var t := Insert(init, x);
        forall k | 0 <= k < |t| ensures NodeLe(t[k], last) {
          assert t[k] in multiset(t);
          assert t[k] in multiset(init) || t[k] == x;
        }
        assert Insert(s, x) == t + [last];
      }
    }
  }

  /** The sorted level holds exactly the listed nodes. */
  lemma {:induction false} SortNodesPermutes(s: seq<FileNode>)
    ensures multiset(SortNodes(s)) == multiset(s)
  {
    if s != [] {
      assert s == s[..|s| - 1] + [s[|s| - 1]];
      SortNodesPermutes(s[..|s| - 1]);
      InsertPermutes(SortNodes(s[..|s| - 1]), s[|s| - 1]);
    }
  }

  /** The sorted level is in comparator order: folders first, then by lower-cased name. */
  lemma {:induction false} SortNodesSorted(s: seq<FileNode>)
    ensures Sorted(SortNodes(s))
  {
    if s != [] {
      SortNodesSorted(s[..|s| - 1]);
      InsertSorted(SortNodes(s[..|s| - 1]), s[|s| - 1]);
    }
  }

  /** One step of `Insert` from the right: `x` passes an element it precedes. */
  lemma InsertPasses(p: seq<FileNode>, j: nat, x: FileNode)
    requires 0 < j <= |p| && !NodeLe(p[j - 1], x)
    ensures Insert(p[..j], x) == Insert(p[..j - 1], x) + [p[j - 1]]
  {
    assert p[..j][..j - 1] == p[..j - 1];
  }

  /** `Insert` stops at an element `x` does not precede. */
  lemma InsertStops(p: seq<FileNode>, j: nat, x: FileNode)
    requires j <= |p| && (j == 0 || NodeLe(p[j - 1], x))
    ensures Insert(p[..j], x) == p[..j] + [x]
  {
  }

  /** Sorting one more element of the listing inserts it into the sorted prefix. */
  lemma SortNodesStep(s: seq<FileNode>, i: nat)
    requires i < |s|
    ensures SortNodes(s[..i + 1]) == Insert(SortNodes(s[..i]), s[i])
  {
    assert s[..i + 1][..i] == s[..i];
  }

  /**
   * `nodes.sort(comparator)` on the array itself: an insertion sort that
   * swaps each element left past the elements it precedes, so equal elements
   * keep their listing order.
   */
  method SortLevel(a: array<FileNode>)
    modifies a
    ensures a[..] == SortNodes(old(a[..]))
  {
    ghost var s := a[..];
    var i := 0;
    while i < a.Length
      invariant 0 <= i <= a.Length
      invariant a[..] == SortNodes(s[..i]) + s[i..]
    {
      ghost var pre := a[..];
      InsertLeft(a, i);
      SortLevelStep(s, i, pre, a[..]);
      i := i + 1;
    }
    assert s[..i] == s && s[i..] == [];
  }

  /** One round of the outer loop: inserting `s[i]` extends the sorted prefix by one. */
  lemma SortLevelStep(s: seq<FileNode>, i: nat, pre: seq<FileNode>, post: seq<FileNode>)
    requires i < |s| && pre == SortNodes(s[..i]) + s[i..]
    requires post == Insert(pre[..i], pre[i]) + pre[i + 1..]
    ensures post == SortNodes(s[..i + 1]) + s[i + 1..]
  {
    assert pre[..i] == SortNodes(s[..i]) && pre[i] == s[i] && pre[i + 1..] == s[i + 1..];
    SortNodesStep(s, i);
  }

  /** Moves `a[i]` left into the prefix `a[..i]`, as `Insert` places it. */
  method InsertLeft(a: array<FileNode>, i: nat)
    requires i < a.Length
    modifies a
    ensures a[..] == Insert(old(a[..i]), old(a[i])) + old(a[i + 1..])
  {
    ghost var p, x, rest := a[..i], a[i], a[i + 1..];
    var j := i;
    assert p[..j] == p && p[j..] == [];
    assert a[..] == p[..j] + [x] + p[j..] + rest;
    while j > 0 && !NodeLe(a[j - 1], a[j])
      invariant 0 <= j <= i
      invariant a[..] == p[..j] + [x] + p[j..] + rest
      invariant Insert(p, x) == Insert(p[..j], x) + p[j..]
    {
      SwapStep(p, x, j, rest);
      InsertShift(p, j, x);
      a[j - 1], a[j] := a[j], a[j - 1];
      j := j - 1;
    }
    InsertStops(p, j, x);
  }

  /** The loop's account of `Insert` after `x` passes `p[j - 1]`. */
  lemma InsertShift(p: seq<FileNode>, j: nat, x: FileNode)
    requires 0 < j <= |p| && !NodeLe(p[j - 1], x)
    requires Insert(p, x) == Insert(p[..j], x) + p[j..]
    ensures Insert(p, x) == Insert(p[..j - 1], x) + p[j - 1..]
  {
    InsertPasses(p, j, x);
    assert p[j - 1..] == [p[j - 1]] + p[j..];
  }

  /** Swapping `x` with its left neighbour moves it one place left. */
  lemma SwapStep(p: seq<FileNode>, x: FileNode, j: nat, rest: seq<FileNode>)
    requires 0 < j <= |p|
    ensures var u := p[..j] + [x] + p[j..] + rest;
            u[j - 1] == p[j - 1] && u[j] == x &&
            u[j - 1 := x][j := p[j - 1]] == p[..j - 1] + [x] + p[j - 1..] + rest
  {
    var u := p[..j] + [x] + p[j..] + rest;
    var w := p[..j - 1] + [x] + p[j - 1..] + rest;
    assert |u[j - 1 := x][j := p[j - 1]]| == |w|;
    forall k | 0 <= k < |w| ensures u[j - 1 := x][j := p[j - 1]][k] == w[k] {
      if k < j - 1 {
        assert u[k] == p[k] && w[k] == p[k];
      } else if j < k <= |p| {
        assert u[k] == p[k - 1] && w[k] == p[k - 1];
      }
    }
  }

  /** A listing already in order is left as it is. */
  lemma {:induction false} SortSortedUnchanged(s: seq<FileNode>)
    requires Sorted(s)
    ensures SortNodes(s) == s
  {
    if s != [] {
      var init, x := s[..|s| - 1], s[|s| - 1];
      assert Sorted(init);
      SortSortedUnchanged(init);
      assert SortNodes(s) == Insert(init, x);
      if init != [] {
        assert NodeLe(init[|init| - 1], x);
        assert Insert(init, x) == init + [x];
      }
      assert s == init + [x];
    }
  }

  /** Sorting twice is sorting once. */
  lemma SortIdempotent(s: seq<FileNode>)
    ensures SortNodes(SortNodes(s)) == SortNodes(s)
  {
    SortNodesSorted(s);
    SortSortedUnchanged(SortNodes(s));
  }

  /** Every folder of a sorted level comes before every file. */
  lemma SortedFoldersFirst(s: seq<FileNode>, i: int, j: int)
    requires Sorted(s) && 0 <= i < |s| && 0 <= j < |s|
    requires s[i].kind == Folder && s[j].kind == File
    ensures i < j
  {
  }

  // ----- loadFolderContents -----

  /**
   * What `loadFolderContents(path, ctx)` settles to: with no repository (`ctx || repo` both
   * absent) the level is empty and nothing is requested; otherwise the reply
   * to the one listing request decides: a non-OK status rejects, a non-array
   * gives an empty level, and an array gives its kept items as sorted nodes.
   */
  function FolderContents(path: string, ctx: Option<RepoCtx>, repo: Option<RepoCtx>,
                              reply: ListingReply): (r: Outcome<seq<FileNode>>)
    ensures r == Threw <==> (ctx.Some? || repo.Some?) && reply.NotOk?
    ensures ctx.None? && repo.None? ==> r == Done([])
    ensures (ctx.Some? || repo.Some?) && reply.NotArray? ==> r == Done([])
    ensures (ctx.Some? || repo.Some?) && reply.Items? ==>
              r.Done? && Sorted(r.value) &&
              multiset(r.value) == multiset(MapListing(path, reply.entries))
  {
    if ctx.None? && repo.None? then Done([])
    else
      match reply
      case NotOk => Threw
      case NotArray => Done([])
      case Items(entries) =>
        SortNodesSorted(MapListing(path, entries));
        SortNodesPermutes(MapListing(path, entries));
        Done(SortNodes(MapListing(path, entries)))
  }

  /**
   * `loadFolderContents(path, ctx)` as the source runs it: the kept items are
   * mapped into a fresh array, which is then sorted in place.
   */
  method LoadFolderContents(path: string, ctx: Option<RepoCtx>, repo: Option<RepoCtx>,
                            reply: ListingReply) returns (r: Outcome<seq<FileNode>>)
    ensures r == FolderContents(path, ctx, repo, reply)
  {
    var context := if ctx.Some? then ctx else repo;
    if context.None? {
      return Done([]);
    }
    match reply {
      case NotOk => return Threw;
      case NotArray => return Done([]);
      case Items(entries) =>
        var mapped := MapListing(path, entries);
        var nodes := new FileNode[|mapped|](k requires 0 <= k < |mapped| => mapped[k]);
        assert nodes[..] == mapped;
        SortLevel(nodes);
        return Done(nodes[..]);
    }
  }

  /** `list.filter(..)`: the `dir` and `file` items, in listing order. */
  function KeptItems(items: seq<Entry>): (r: seq<Entry>)
    ensures |r| <= |items|
    ensures forall e :: e in r <==> e in items && Kept(e)
  {
    if items == [] then []
    else (if Kept(items[0]) then [items[0]] else []) + KeptItems(items[1..])
  }

  /**
   * The level is the filter followed by the map: its `k`-th node is the
   * node of the `k`-th kept item, so nodes and kept items correspond
   * one-to-one, in listing order.
   */
  lemma {:induction false} MapListingFilterMap(path: string, items: seq<Entry>)
    ensures |MapListing(path, items)| == |KeptItems(items)|
    ensures forall k :: 0 <= k < |KeptItems(items)| ==>
              MapListing(path, items)[k] == ToNode(path, KeptItems(items)[k])
  {
    if items != [] {
      MapListingFilterMap(path, items[1..]);
      var rest, kept := MapListing(path, items[1..]), KeptItems(items[1..]);
      if Kept(items[0]) {
        assert MapListing(path, items) == [ToNode(path, items[0])] + rest;
        assert KeptItems(items) == [items[0]] + kept;
        assert forall k :: 1 <= k < |KeptItems(items)| ==>
          MapListing(path, items)[k] == rest[k - 1] && KeptItems(items)[k] == kept[k - 1];
      } else {
        assert MapListing(path, items) == rest;
        assert KeptItems(items) == kept;
      }
    }
  }

  /** Each node of a level is the node of some kept item. */
  lemma {:induction false} MapListingItems(path: string, items: seq<Entry>, k: nat)
    requires k < |MapListing(path, items)|
    ensures exists i :: 0 <= i < |items| && Kept(items[i]) && MapListing(path, items)[k] == ToNode(path, items[i])
  {
    var rest := MapListing(path, items[1..]);
    var j: nat;
    if Kept(items[0]) {
      assert MapListing(path, items) == [ToNode(path, items[0])] + rest;
      if k == 0 {
        j := 0;
      } else {
        MapListingItems(path, items[1..], k - 1);
        var i :| 0 <= i < |items[1..]| && Kept(items[1..][i]) && rest[k - 1] == ToNode(path, items[1..][i]);
        j := i + 1;
      }
    } else {
      assert MapListing(path, items) == rest;
      MapListingItems(path, items[1..], k);
      var i :| 0 <= i < |items[1..]| && Kept(items[1..][i]) && rest[k] == ToNode(path, items[1..][i]);
      j := i + 1;
    }
    assert Kept(items[j]) && MapListing(path, items)[k] == ToNode(path, items[j]);
  }

  /** Every kept item has its node in the level. */
  lemma {:induction false} MapListingKept(path: string, items: seq<Entry>, i: nat)
    requires i < |items| && Kept(items[i])
    ensures ToNode(path, items[i]) in MapListing(path, items)
  {
    if i > 0 {
      assert items[1..][i - 1] == items[i];
      MapListingKept(path, items[1..], i - 1);
    }
  }

  /** A level's nodes: folders arrive unloaded with an empty child array, files loaded and childless. */
  lemma ListingShape(path: string, items: seq<Entry>, n: FileNode)
    requires n in MapListing(path, items)
    ensures n.content == None
    ensures n.kind == Folder ==> n.children == Children([]) && !n.loaded
    ensures n.kind == File ==> n.children == NoChildren && n.loaded
    ensures path != "" ==> StartsWith(n.path, path + "/")
    ensures path == "" ==> n.path == n.name
  {
    var k :| 0 <= k < |MapListing(path, items)| && MapListing(path, items)[k] == n;
    MapListingItems(path, items, k);
  }
}
