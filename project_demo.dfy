/**
 * The project-demo modal's code browser (src/components/ProjectDemo/ProjectDemo.tsx)
 * as an object: the component's state hooks are the fields, and each event
 * handler is a method run to completion, its awaited replies given as inputs.
 */
module ProjectDemo {
  import opened Wrappers
  import opened FileTree
  import opened GithubRepo
  import opened Listing
  import opened FileContent

  /** The reply to the repository request (`/repos/{owner}/{repo}`), as `fetchJson` sees it. */
  datatype RepoReply = RepoNotOk | RepoJson(defaultBranch: Option<string>)

  const LoadFailure: string := "Failed to load repository. Showing mock structure."

  /** `repoData.default_branch || 'main'`: a missing or empty default branch means `main`. */
  function Branch(defaultBranch: Option<string>): (b: string)
    ensures b != ""
    ensures defaultBranch.Some? && defaultBranch.value != "" ==> b == defaultBranch.value
    ensures defaultBranch.None? || defaultBranch.value == "" ==> b == "main"
  {
    if defaultBranch.Some? && defaultBranch.value != "" then defaultBranch.value else "main"
  }

  /** The expanded set after a toggle of `p`: `p` flips, every other path stays. */
  function Toggled(s: set<string>, p: string): (r: set<string>)
    ensures p in r <==> p !in s
    ensures forall q :: q != p ==> (q in r <==> q in s)
  {
    if p in s then s - {p} else s + {p}
  }

  /** Toggling twice restores the set. */
  lemma ToggledTwice(s: set<string>, p: string)
    ensures Toggled(Toggled(s, p), p) == s
  {
    assert forall q :: q in Toggled(Toggled(s, p), p) <==> q in s;
  }

  /** A toggle asks for a listing exactly when it opens a folder not loaded yet. */
  predicate LoadsOnToggle(expanded: set<string>, node: FileNode)
  {
    node.path !in expanded && node.kind == Folder && !node.loaded
  }

  /**
   * The tree after a lazy listing settles: `prev ? setChildrenAtPath(prev, path, children) : prev`
   * when it resolves, the tree as it was when it rejects (the error is swallowed).
   */
  function Graft(structure: Option<seq<FileNode>>, path: string, level: Outcome<seq<FileNode>>): (r: Option<seq<FileNode>>)
    ensures structure.None? || level.Threw? ==> r == structure
    ensures structure.Some? && level.Done? ==>
              r.Some? && Find(r.value, path) == MarkLoaded(Find(structure.value, path), level.value)
    ensures structure.Some? && level.Done? ==>
              r.Some? && Skeleton(r.value, path) == Skeleton(structure.value, path) &&
              ChildrenSetAt(r.value, path, level.value)
  {
    match level
    case Threw => structure
    case Done(children) =>
      if structure.Some? then
        SetChildrenFind(structure.value, path, children);
        SetChildrenFrame(structure.value, path, children);
        SetChildrenReachesAll(structure.value, path, children);
        Some(SetChildrenAtPath(structure.value, path, children))
      else structure
  }

  /** Once a folder's listing is grafted, opening it again requests nothing. */
  lemma GraftedFolderLoaded(structure: seq<FileNode>, path: string, children: seq<FileNode>, expanded: set<string>)
    requires Find(structure, path).Some?
    ensures var r := Graft(Some(structure), path, Done(children));
            r.Some? && Find(r.value, path).Some? &&
            Find(r.value, path).value.loaded && Find(r.value, path).value.children == Children(children) &&
            !LoadsOnToggle(expanded, Find(r.value, path).value)
  {
  }

  /** `!node.content`: a file is fetched when its content is absent or empty. */
  predicate NeedsFetch(n: FileNode)
  {
    n.content.None? || n.content.value == ""
  }

  /** The tree after `injectContent`, when there is a tree to update. */
  function Inject(structure: Option<seq<FileNode>>, path: string, content: string): (r: Option<seq<FileNode>>)
    ensures r.Some? <==> structure.Some?
    ensures structure.Some? ==>
              Find(r.value, path) == WithContent(Find(structure.value, path), content) &&
              Erase(r.value) == Erase(structure.value)
    ensures structure.Some? ==>
              ContentSkeleton(r.value, path) == ContentSkeleton(structure.value, path) &&
              ContentSetAt(r.value, path, content)
  {
    if structure.Some? then
      InjectContentFind(structure.value, path, content);
      InjectContentOnlyContent(structure.value, path, content);
      InjectContentFrame(structure.value, path, content);
      InjectContentReachesAll(structure.value, path, content);
      Some(InjectContent(structure.value, path, content))
    else None
  }

  /** A file whose fetched text is non-empty is not fetched again; an empty text is refetched. */
  lemma InjectedRefetch(structure: seq<FileNode>, path: string, content: string)
    requires Find(structure, path).Some?
    ensures var n := Find(Inject(Some(structure), path, content).value, path);
            n.Some? && (NeedsFetch(n.value) <==> content == "")
  {
  }

  /** `fileStructureState ?? project.fileStructure ?? mockFileStructure`. */
  function DisplayedTree(state: Option<seq<FileNode>>, own: Option<seq<FileNode>>): (r: seq<FileNode>)
    ensures state.Some? ==> r == state.value
    ensures state.None? && own.Some? ==> r == own.value
    ensures state.None? && own.None? ==> r == MockFileStructure
  {
    match state
    case Some(t) => t
    case None => match own { case Some(t) => t case None => MockFileStructure }
  }

  /** A mock file: content given, no children, `loaded` absent. */
  function MockFile(name: string, path: string, content: string): FileNode
  {
    FileNode(name, File, path, Some(content), NoChildren, false)
  }

  /** A mock folder: children given, `loaded` absent. */
  function MockFolder(name: string, path: string, children: seq<FileNode>): FileNode
  {
    FileNode(name, Folder, path, None, Children(children), false)
  }

  /** The fallback tree shown when neither a fetched tree nor the project's own is available. */
  const MockFileStructure: seq<FileNode> := [
    MockFolder("src", "src", [
      MockFolder("components", "src/components", [
        MockFile("Header.tsx", "src/components/Header.tsx", "// Header component code here..."),
        MockFile("Footer.tsx", "src/components/Footer.tsx", "// Footer component code here...")]),
      MockFolder("pages", "src/pages", [
        MockFile("Home.tsx", "src/pages/Home.tsx", "// Home page component..."),
        MockFile("Products.tsx", "src/pages/Products.tsx", "// Products page component...")]),
      MockFolder("utils", "src/utils", [
        MockFile("api.ts", "src/utils/api.ts", "// API utility functions..."),
        MockFile("helpers.ts", "src/utils/helpers.ts", "// Helper functions...")]),
      MockFile("App.tsx", "src/App.tsx", "// Main App component..."),
      MockFile("index.tsx", "src/index.tsx", "// Entry point...")]),
    MockFolder("public", "public", [
      MockFile("index.html", "public/index.html", "<!DOCTYPE html>..."),
      MockFile("favicon.ico", "public/favicon.ico", "Binary file...")]),
    MockFile("package.json", "package.json", "{\n  \"name\": \"project\",\n  \"version\": \"1.0.0\"..."),
    MockFile("README.md", "README.md", "# Project Title\n\nProject description..."),
    MockFile(".gitignore", ".gitignore", "node_modules/\n.env\nbuild/")
  ]

  /** The mock tree keeps files childless, so it satisfies what the rewrites preserve. */
  lemma MockTreeWellFormed()
    ensures WellFormed(MockFileStructure)
  {
  }

  class Demo {
    var selected: Option<FileNode>          // selectedFile
    var expanded: set<string>               // expandedFolders
    var structure: Option<seq<FileNode>>    // fileStructureState
    var isLoadingTree: bool
    var loadingFilePath: Option<string>
    var loadError: Option<string>
    var repo: Option<RepoCtx>

    /** Between events no load is in progress. */
    predicate Idle()
      reads this
    {
      !isLoadingTree && loadingFilePath.None?
    }

    /** The hooks' initial values. */
    constructor()
      ensures Idle()
      ensures selected == None && expanded == {} && structure == None
      ensures loadError == None && repo == None
    {
      selected := None;
      expanded := {};
      structure := None;
      isLoadingTree := false;
      loadingFilePath := None;
      loadError := None;
      repo := None;
    }

    /**
     * The effect on `project.github`: load the repository when there is a
     * URL (otherwise drop the fetched tree), then clear the selection and
     * collapse every folder.
     */
    method OpenProject(github: string, repoReply: RepoReply, rootReply: ListingReply)
      requires Idle()
      modifies this
      ensures Idle()
      ensures selected == None && expanded == {}
      ensures github == "" ==>
                structure == None && repo == old(repo) && loadError == old(loadError)
      ensures github != "" && ParseGithubRepo(github).None? ==>
                structure == old(structure) && repo == old(repo) && loadError == old(loadError)
      ensures github != "" && ParseGithubRepo(github).Some? && repoReply.RepoNotOk? ==>
                structure == None && repo == old(repo) && loadError == Some(LoadFailure)
      ensures github != "" && ParseGithubRepo(github).Some? && repoReply.RepoJson? ==>
                var ref := ParseGithubRepo(github).value;
                var ctx := RepoCtx(ref.owner, ref.repo, Branch(repoReply.defaultBranch));
                repo == Some(ctx) &&
                match FolderContents("", Some(ctx), old(repo), rootReply)
                case Threw => structure == None && loadError == Some(LoadFailure)
                case Done(root) => structure == Some(root) && loadError == None
    {
      if github != "" {
        LoadRepoInfoAndRoot(github, repoReply, rootReply);
      } else {
        structure := None;
      }
      selected := None;
      expanded := {};
    }

    /**
     * `loadRepoInfoAndRoot`: parse the URL, ask for the repository, then for
     * its root listing; any rejection shows the error and drops the tree.
     */
    method LoadRepoInfoAndRoot(github: string, repoReply: RepoReply, rootReply: ListingReply)
      requires Idle()
      modifies this
      ensures Idle()
      ensures selected == old(selected) && expanded == old(expanded)
      ensures github == "" || ParseGithubRepo(github).None? ==>
                structure == old(structure) && repo == old(repo) && loadError == old(loadError)
      ensures github != "" && ParseGithubRepo(github).Some? && repoReply.RepoNotOk? ==>
                structure == None && repo == old(repo) && loadError == Some(LoadFailure)
      ensures github != "" && ParseGithubRepo(github).Some? && repoReply.RepoJson? ==>
                var ref := ParseGithubRepo(github).value;
                var ctx := RepoCtx(ref.owner, ref.repo, Branch(repoReply.defaultBranch));
                repo == Some(ctx) &&
                match FolderContents("", Some(ctx), old(repo), rootReply)
                case Threw => structure == None && loadError == Some(LoadFailure)
                case Done(root) => structure == Some(root) && loadError == None
    {
      if github == "" {
        return;
      }
      var parsed := ParseGithubRepo(github);
      if parsed.None? {
        return;
      }
      isLoadingTree := true;
      loadError := None;
      match repoReply {
        case RepoNotOk =>
          loadError := Some(LoadFailure);
          structure := None;
        case RepoJson(defaultBranch) =>
          var ctx := RepoCtx(parsed.value.owner, parsed.value.repo, Branch(defaultBranch));
          var previous := repo;
          repo := Some(ctx);
          var root := LoadFolderContents("", Some(ctx), previous, rootReply);
          if root.Threw? {
            loadError := Some(LoadFailure);
            structure := None;
          } else {
            structure := Some(root.value);
          }
      }
      isLoadingTree := false;
    }

    /**
     * `toggleFolder(node)`: flip the node's path in a copy of the expanded
     * set; when that opens a folder not loaded yet, request its listing with
     * the current repository and graft the level into the tree.
     */
    method ToggleFolder(node: FileNode, reply: ListingReply)
      requires Idle()
      modifies this
      ensures Idle()
      ensures expanded == Toggled(old(expanded), node.path)
      ensures structure ==
                if LoadsOnToggle(old(expanded), node)
                then Graft(old(structure), node.path, FolderContents(node.path, None, repo, reply))
                else old(structure)
      ensures selected == old(selected) && repo == old(repo) && loadError == old(loadError)
    {
      var newExpanded := expanded;
      if node.path in newExpanded {
        newExpanded := newExpanded - {node.path};
      } else {
        newExpanded := newExpanded + {node.path};
        if node.kind == Folder && !node.loaded {
          var level := LoadFolderContents(node.path, None, repo, reply);
          if level.Done? && structure.Some? {
            structure := Some(SetChildrenAtPath(structure.value, node.path, level.value));
          }
        }
      }
      expanded := newExpanded;
    }

    /**
     * A click on a tree row. A folder is toggled. A file is selected and,
     * when its content is falsy, fetched: the text is injected into the tree
     * and into the selection, and `loadingFilePath` is cleared however the
     * fetch ends. `threw` says that the handler's promise rejected (a
     * rejected file fetch is not caught).
     */
    method ClickNode(node: FileNode, listing: ListingReply, meta: MetaReply, raw: RawReply,
                     decode: string -> Option<string>) returns (threw: bool)
      requires Idle()
      modifies this
      ensures Idle()
      ensures repo == old(repo) && loadError == old(loadError)
      ensures node.kind == Folder ==>
                !threw && selected == old(selected) &&
                expanded == Toggled(old(expanded), node.path) &&
                structure == if LoadsOnToggle(old(expanded), node)
                             then Graft(old(structure), node.path, FolderContents(node.path, None, repo, listing))
                             else old(structure)
      ensures node.kind == File ==> expanded == old(expanded)
      ensures node.kind == File && !NeedsFetch(node) ==>
                !threw && selected == Some(node) && structure == old(structure)
      ensures node.kind == File && NeedsFetch(node) ==>
                match LoadFileContent(repo, meta, raw, decode)
                case Threw => threw && selected == Some(node) && structure == old(structure)
                case Done(text) =>
                  !threw && selected == Some(node.(content := Some(text))) &&
                  structure == Inject(old(structure), node.path, text)
    {
      if node.kind == Folder {
        ToggleFolder(node, listing);
        return false;
      }
      selected := Some(node);
      if NeedsFetch(node) {
        loadingFilePath := Some(node.path);
        var content := LoadFileContent(repo, meta, raw, decode);
        if content.Threw? {
          loadingFilePath := None;
          return true;
        }
        if structure.Some? {
          structure := Some(InjectContent(structure.value, node.path, content.value));
        }
        if selected.Some? && selected.value.path == node.path {
          selected := Some(selected.value.(content := Some(content.value)));
        }
        loadingFilePath := None;
      }
      return false;
    }
  }
}
