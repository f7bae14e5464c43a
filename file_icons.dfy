/**
 * `getFileIcon` of the project-demo modal
 * (src/components/ProjectDemo/ProjectDemo.tsx): the icon of a tree entry
 * from the lower-cased text after the last dot of its name.
 */
module FileIcons {
  import opened Text
  import opened FileTree

  /** The icons, by what they stand for. */
  datatype Icon =
    | FolderIcon      // every folder
    | ScriptIcon      // js
    | TypeScriptIcon  // ts
    | ReactIcon       // jsx, tsx
    | StyleIcon       // css, scss
    | HtmlIcon        // html
    | JsonIcon        // json
    | MarkdownIcon    // md
    | IgnoreIcon      // gitignore
    | DocumentIcon    // anything else

  /** Does `t` end `name` right after its last dot (or is it all of a dot-free name)? */
  predicate IsLastSegment(name: string, t: string)
  {
    '.' !in t && |t| <= |name| && name[|name| - |t|..] == t &&
    (|t| < |name| ==> name[|name| - |t| - 1] == '.')
  }

  /** `fileName.split('.').pop()`: the text after the last dot, or the whole name without one. */
  function LastSegment(name: string): (r: string)
    ensures IsLastSegment(name, r)
  {
    if name == [] then []
    else if name[|name| - 1] == '.' then []
    else
      var r := LastSegment(name[..|name| - 1]) + [name[|name| - 1]];
      assert name[..|name| - 1][|name| - |r|..] + [name[|name| - 1]] == name[|name| - |r|..];
      r
  }

  /** Only one text ends a name after its last dot. */
  lemma LastSegmentUnique(name: string, t: string)
    requires IsLastSegment(name, t)
    ensures LastSegment(name) == t
  {
  }

  /** `?.toLowerCase()` of the last segment. */
  function Extension(name: string): (r: string)
    ensures |r| <= |name|
    ensures '.' !in r
    ensures forall i :: 0 <= i < |r| ==> !('A' <= r[i] <= 'Z')
  {
    var t := LastSegment(name);
    assert forall i :: 0 <= i < |t| ==> t[i] != '.';
    Lower(t)
  }

  /** The `switch` over the lower-cased extension. */
  function IconFor(ext: string): (icon: Icon)
    ensures icon != FolderIcon
  {
    match ext
    case "js" => ScriptIcon
    case "ts" => TypeScriptIcon
    case "jsx" => ReactIcon
    case "tsx" => ReactIcon
    case "css" => StyleIcon
    case "scss" => StyleIcon
    case "html" => HtmlIcon
    case "json" => JsonIcon
    case "md" => MarkdownIcon
    case "gitignore" => IgnoreIcon
    case _ => DocumentIcon
  }

  /** `getFileIcon(fileName)`. */
  function FileIcon(name: string): (icon: Icon)
    ensures icon != FolderIcon
    ensures icon == DocumentIcon <==> Extension(name) !in KnownExtensions
  {
    DefaultIconIff(Extension(name));
    IconFor(Extension(name))
  }

  /** The extensions with an icon of their own. */
  const KnownExtensions: set<string> :=
    {"js", "ts", "jsx", "tsx", "css", "scss", "html", "json", "md", "gitignore"}

  /** A name gets the generic document icon exactly when its extension is not one of the known ones. */
  lemma DocumentIconIff(name: string)
    ensures FileIcon(name) == DocumentIcon <==> Extension(name) !in KnownExtensions
  {
    DefaultIconIff(Extension(name));
  }

  /** The `default` branch is taken exactly for the extensions the table does not list. */
  lemma DefaultIconIff(ext: string)
    ensures IconFor(ext) == DocumentIcon <==> ext !in KnownExtensions
  {
  }

  /** The icon a row shows: the folder icon for folders, `getFileIcon(name)` for files. */
  function NodeIcon(n: FileNode): (icon: Icon)
    ensures icon == FolderIcon <==> n.kind == Folder
  {
    if n.kind == Folder then FolderIcon else FileIcon(n.name)
  }

  /** The extension of `base.ext` is `ext` lower-cased, whatever `base` is. */
  lemma ExtensionAfterDot(base: string, ext: string)
    requires '.' !in ext
    ensures Extension(base + "." + ext) == Lower(ext)
  {
    var name := base + "." + ext;
    assert name[|name| - |ext|..] == ext;
    assert name[|name| - |ext| - 1] == '.';
    LastSegmentUnique(name, ext);
  }

  /** A name without a dot is its own extension. */
  lemma ExtensionNoDot(name: string)
    requires '.' !in name
    ensures Extension(name) == Lower(name)
  {
    assert name[0..] == name;
    LastSegmentUnique(name, name);
  }

  /** Lower-casing commutes with taking the last segment. */
  lemma LastSegmentLower(name: string)
    ensures LastSegment(Lower(name)) == Lower(LastSegment(name))
  {
    var t := LastSegment(name);
    var ln := Lower(name);
    var lt := Lower(t);
    forall i | 0 <= i < |lt| ensures lt[i] != '.' {
      assert t[i] != '.';
    }
    forall i | 0 <= i < |lt| ensures ln[|ln| - |lt|..][i] == lt[i] {
      assert name[|name| - |t|..][i] == t[i];
    }
    assert ln[|ln| - |lt|..] == lt;
    LastSegmentUnique(ln, lt);
  }

  /** The icon does not depend on letter case. */
  lemma FileIconIgnoresCase(name: string)
    ensures FileIcon(Lower(name)) == FileIcon(name)
  {
    LastSegmentLower(name);
    LowerIdempotent(LastSegment(name));
  }

  /** A dot file such as `.gitignore` is named by what follows its dot. */
  lemma DotFileIcon(ext: string)
    requires '.' !in ext
    ensures FileIcon("." + ext) == IconFor(Lower(ext))
  {
    assert "." + ext == "" + "." + ext;
    ExtensionAfterDot("", ext);
  }

  /** `.gitignore`, the one dot file of the mock tree, has the ignore icon (with `DotFileIcon`). */
  lemma GitignoreIcon()
    ensures IconFor(Lower("gitignore")) == IgnoreIcon
  {
    assert Lower("gitignore") == "gitignore";
  }
}
