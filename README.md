# Portfolio-Web, modelled in Dafny

This project models the logic of AleamZ's portfolio site, a React single-page
site. It covers the code browser in the project-demo modal, the projects
carousel, the translation layer, the typewriter headline on the home section
and the skills section.

- **Code browser** (`ProjectDemo.tsx`): it parses a GitHub URL into owner and
  repository. It turns a directory listing into file-tree nodes and sorts
  them: folders first, names compared without case. It grafts lazily loaded
  folder levels and fetched file contents into the tree by path, and toggles
  the set of expanded folders. It turns a file-content reply into display
  text through a ladder of fallbacks, maps file extensions to icons, and
  picks which tree to show. Modules:
  - `GithubRepo`, `Listing`, `FileTree`, `FileContent`, `FileIcons`: the
    pure pieces;
  - `ProjectDemo`: the component itself, a class whose fields are the
    component's state hooks and whose methods are its event handlers.
- **Projects carousel** (`Projects.tsx`), module `Projects`:
  - the category filter;
  - the `Carousel` class, which holds the active index, the selected
    category and the opened project;
  - clamped previous/next navigation by button and by arrow key;
  - the reset on category change;
  - the integer 3D card geometry;
  - the click rule, the disabled-button rules and the GitHub-link rule.
- **Translations** (`i18n/index.ts`), module `I18n`:
  - the translation table;
  - the lookup that falls back to the key;
  - the choice of language from the saved preference or the browser's
    language tag;
  - a `LanguageStore` class whose storage is a map field, which gives the
    set-then-get round trip.
- **Typewriter** (`Home.tsx`), module `Home`:
  - the four-branch timer effect, as a `Typewriter` class with a `Step`
    method and the invariant that the line shows a prefix of the headline;
  - the closed cycle of 2·n + 2 timers;
  - the split of the headline at `" - "` into name and role.
- **Skills** (`Skills.tsx`), module `Skills`:
  - the per-category filter;
  - the partition of the skills into the drawn categories;
  - the bar width and transition delay rules;
  - the one-time animation flip.

The shared modules are `Wrappers` (optional values, and the settled outcome
of a promise) and `Text` (`toLowerCase`, `startsWith`, and JavaScript's
string order).

Network replies, `localStorage`, `navigator.language` and `atob` are
parameters of the model. Each event handler runs to completion with its
awaited replies given as inputs.

## Model

| member | source | states |
|---|---|---|
| GithubRepo.ParseGithubRepo | src/components/ProjectDemo/ProjectDemo.tsx:96-104 | a parsed owner never holds `/` or a line terminator; a parsed repo never holds `/`, `.` or a line terminator |
| GithubRepo.ParseSound | src/components/ProjectDemo/ProjectDemo.tsx:98-100 | a parse result is a regex match at some position p (case-insensitive `github.com/`, owner up to the next `/`, repo up to end, `.` or `/`) with no match before p |
| GithubRepo.ParseComplete | src/components/ProjectDemo/ProjectDemo.tsx:98-100 | a match at p with no `github.com/` before it is what the parse returns |
| GithubRepo.ParseNoHost | src/components/ProjectDemo/ProjectDemo.tsx:98-99 | with no `github.com/` anywhere the result is null |
| GithubRepo.ParseOwnerRepo | src/components/ProjectDemo/ProjectDemo.tsx:98-100 | for any URL shaped prefix (no `g`) + `github.com/` in any case + owner + `/` + repo + (end, or `.`/`/`...), the result is exactly that owner and repo; examples such as `https://github.com/AleamZ/Portfolio-Web.git` are instances |
| GithubRepo.MatchAtIff | src/components/ProjectDemo/ProjectDemo.tsx:98 | the scanner's match at a position holds exactly when the regex's conditions hold there |
| GithubRepo.ParseFromFirst | src/components/ProjectDemo/ProjectDemo.tsx:98 | the leftmost match is the one returned |
| GithubRepo.ParseOtherHost | src/components/ProjectDemo/ProjectDemo.tsx:98-99 | `https://host/acme/widgets` parses to null |
| GithubRepo.ParseHash | src/components/ProjectDemo/ProjectDemo.tsx:98-99 | `#` parses to null |
| GithubRepo.ParseNoOwnerSlash | src/components/ProjectDemo/ProjectDemo.tsx:98-99 | `github.com/acme` (no `/` after the owner) parses to null |
| Listing.JoinPath | src/components/ProjectDemo/ProjectDemo.tsx:149 | a child's path is its name at the root, otherwise parent + `/` + name |
| Listing.ListingShape | src/components/ProjectDemo/ProjectDemo.tsx:144-152 | every mapped node has no content; a folder has an empty child list and is not loaded; a file has no children and is loaded; its path lies under the parent |
| Listing.Kept | src/components/ProjectDemo/ProjectDemo.tsx:145 | the filter's test: the type is `dir` or `file` (MapListingKept, MapListingFilterMap state its use) |
| Listing.ToNode | src/components/ProjectDemo/ProjectDemo.tsx:146-152 | the node an item becomes; ListingShape states its fields |
| Listing.KeptItems | src/components/ProjectDemo/ProjectDemo.tsx:145 | the filter keeps exactly the `dir` and `file` items and is no longer than the listing |
| Listing.MapListing | src/components/ProjectDemo/ProjectDemo.tsx:144-152 | the level is no longer than the listing; MapListingFilterMap states it exactly |
| Listing.MapListingFilterMap | src/components/ProjectDemo/ProjectDemo.tsx:144-152 | the level is the filter followed by the map: as many nodes as kept items, the k-th node being the node of the k-th kept item |
| Listing.MapListingItems | src/components/ProjectDemo/ProjectDemo.tsx:144-152 | every mapped node comes from a listing item of type `dir` or `file` |
| Listing.MapListingKept | src/components/ProjectDemo/ProjectDemo.tsx:145-152 | every `dir` or `file` item appears as a node |
| Listing.NodeLe | src/components/ProjectDemo/ProjectDemo.tsx:154-161 | the comparator's "not after": a folder before a file, within a kind by lower-cased name; NodeLeTotal and NodeLeTrans make it a total preorder |
| Listing.SortNodes | src/components/ProjectDemo/ProjectDemo.tsx:154-161 | the sort keeps the length; SortNodesPermutes and SortNodesSorted state the rest |
| Listing.NodeLeTotal | src/components/ProjectDemo/ProjectDemo.tsx:154-161 | the comparator orders any two nodes one way or the other |
| Listing.NodeLeTrans | src/components/ProjectDemo/ProjectDemo.tsx:154-161 | the comparator's order is transitive |
| Listing.InsertPermutes | src/components/ProjectDemo/ProjectDemo.tsx:154-161 | inserting a node adds exactly that node to the multiset |
| Listing.InsertSorted | src/components/ProjectDemo/ProjectDemo.tsx:154-161 | inserting into a sorted level keeps it sorted |
| Listing.SortNodesPermutes | src/components/ProjectDemo/ProjectDemo.tsx:154-161 | the sorted level is a permutation of the mapped nodes |
| Listing.SortNodesSorted | src/components/ProjectDemo/ProjectDemo.tsx:154-161 | the sorted level is ordered: folders before files, lower-cased names non-decreasing within a kind |
| Listing.SortLevel | src/components/ProjectDemo/ProjectDemo.tsx:154-161 | sorting the array in place leaves it equal to the specification sort of its old contents |
| Listing.InsertLeft | src/components/ProjectDemo/ProjectDemo.tsx:154-161 | one insertion pass moves `a[i]` left into the sorted prefix and leaves the suffix alone |
| Listing.SortSortedUnchanged | src/components/ProjectDemo/ProjectDemo.tsx:154-161 | an already sorted level is left as it is |
| Listing.SortIdempotent | src/components/ProjectDemo/ProjectDemo.tsx:154-161 | sorting twice is sorting once |
| Listing.SortedFoldersFirst | src/components/ProjectDemo/ProjectDemo.tsx:155 | in a sorted level every folder precedes every file |
| Listing.FolderContents | src/components/ProjectDemo/ProjectDemo.tsx:136-163 | the promise rejects exactly when there is a repository context and the reply is not OK; no context or a non-array reply gives `[]`; an array gives a sorted permutation of the mapped items |
| Listing.LoadFolderContents | src/components/ProjectDemo/ProjectDemo.tsx:136-163 | the imperative load (context is `ctx` or the current repository, map, sort in place) settles to exactly `FolderContents` |
| FileTree.SetChildrenAtPath | src/components/ProjectDemo/ProjectDemo.tsx:183-193 | on the list it is given: the length, and each node's name, kind, path and content, are kept; a node at the target gets the given children and `loaded`; other nodes keep `loaded` and whether they have a child list, and a node without a subtree is unchanged (deeper levels: SetChildrenFrame) |
| FileTree.SetChildrenFrame | src/components/ProjectDemo/ProjectDemo.tsx:183-193 | at every depth, every sibling list keeps its length and order and every node keeps name, kind, path and content; every node off the target also keeps `loaded` and, when it has no subtree, its children |
| FileTree.SetChildrenReachesAll | src/components/ProjectDemo/ProjectDemo.tsx:183-193 | every target node the traversal reaches, at any depth, gets exactly the given children and `loaded` |
| FileTree.SetChildrenUnique | src/components/ProjectDemo/ProjectDemo.tsx:183-193 | those two facts determine the result: any tree meeting both is the rewrite's result |

| FileTree.SetChildrenAbsent | src/components/ProjectDemo/ProjectDemo.tsx:183-193 | a target path absent from the tree leaves it unchanged |
| FileTree.SetChildrenIdempotent | src/components/ProjectDemo/ProjectDemo.tsx:183-193 | applying the update twice equals applying it once |
| FileTree.SetChildrenFind | src/components/ProjectDemo/ProjectDemo.tsx:183-193 | the first node found at the target afterwards is the one found before, marked loaded with the given children; the target is not searched below its match |
| FileTree.SetChildrenWellFormed | src/components/ProjectDemo/ProjectDemo.tsx:183-193 | when no file sits at the target, well-formed trees and children give a well-formed tree |
| FileTree.InjectContent | src/components/ProjectDemo/ProjectDemo.tsx:242-247 | on the list it is given: the length and each node's name, kind, path and `loaded` are kept; content changes exactly on the nodes at the target, to the given text; target nodes and nodes without a subtree keep their children (deeper levels: InjectContentFrame) |
| FileTree.InjectContentFrame | src/components/ProjectDemo/ProjectDemo.tsx:242-247 | at every depth, only the content of target nodes changes: every other field, every sibling list and every other node's content are kept |
| FileTree.InjectContentReachesAll | src/components/ProjectDemo/ProjectDemo.tsx:242-247 | every target node the traversal reaches, at any depth, holds exactly the given content |
| FileTree.InjectContentUnique | src/components/ProjectDemo/ProjectDemo.tsx:242-247 | those two facts determine the result: any tree meeting both is the rewrite's result |

| FileTree.InjectContentAbsent | src/components/ProjectDemo/ProjectDemo.tsx:242-247 | an absent path leaves the tree unchanged |
| FileTree.InjectContentIdempotent | src/components/ProjectDemo/ProjectDemo.tsx:242-247 | injecting twice equals injecting once |
| FileTree.InjectContentFind | src/components/ProjectDemo/ProjectDemo.tsx:242-247 | the node found at the path afterwards is the one found before with the new content |
| FileTree.InjectContentOnlyContent | src/components/ProjectDemo/ProjectDemo.tsx:242-247 | with every content erased, the tree is the same before and after |
| FileTree.InjectContentWellFormed | src/components/ProjectDemo/ProjectDemo.tsx:242-247 | a well-formed tree stays well-formed |
| FileContent.StripNewlines | src/components/ProjectDemo/ProjectDemo.tsx:171 | the result has no `\n`, is no longer than the input, and is the input when it had none |
| FileContent.StripNewlinesAppend | src/components/ProjectDemo/ProjectDemo.tsx:171 | removing newlines distributes over concatenation |
| FileContent.StripNewlinesKeeps | src/components/ProjectDemo/ProjectDemo.tsx:171 | every other character keeps its count |
| FileContent.StripNewlinesIdempotent | src/components/ProjectDemo/ProjectDemo.tsx:171 | stripping twice is stripping once |
| FileContent.LoadFileContent | src/components/ProjectDemo/ProjectDemo.tsx:165-180 | no repository gives `''`; a non-OK metadata reply rejects; base64 content gives its decode with newlines removed, or the decode-failure text; otherwise an OK raw reply gives its text, any other outcome the not-available text |
| FileContent.RequestCount | src/components/ProjectDemo/ProjectDemo.tsx:165-180 | no request without a repository; the raw request is made exactly when the metadata reply is JSON without base64 content |
| FileContent.RawReplyIrrelevant | src/components/ProjectDemo/ProjectDemo.tsx:169-178 | when the raw request is not made its reply cannot affect the result |
| FileContent.LoadedTextNonEmpty | src/components/ProjectDemo/ProjectDemo.tsx:165-180 | with a repository, an empty result comes only from decoding to `''` or from an empty raw text |
| FileIcons.LastSegment | src/components/ProjectDemo/ProjectDemo.tsx:276 | the result is the text after the last `.`, or the whole name when there is none |
| FileIcons.LastSegmentUnique | src/components/ProjectDemo/ProjectDemo.tsx:276 | that segment is the only one meeting that description |
| FileIcons.ExtensionAfterDot | src/components/ProjectDemo/ProjectDemo.tsx:276 | `base.ext` has extension `ext` in lower case |
| FileIcons.ExtensionNoDot | src/components/ProjectDemo/ProjectDemo.tsx:276 | a name without `.` is its own (lower-cased) extension |
| FileIcons.Extension | src/components/ProjectDemo/ProjectDemo.tsx:276 | the lower-cased last segment: no longer than the name, with no `.` and no upper-case letter |
| FileIcons.FileIcon | src/components/ProjectDemo/ProjectDemo.tsx:275-290 | `getFileIcon`: never the folder icon, and the default icon exactly when the extension is not in the table |
| FileIcons.IconFor | src/components/ProjectDemo/ProjectDemo.tsx:277-289 | the extension table never yields the folder icon |
| FileIcons.DefaultIconIff | src/components/ProjectDemo/ProjectDemo.tsx:277-289 | the `default` branch is taken exactly for extensions outside the table |
| FileIcons.DocumentIconIff | src/components/ProjectDemo/ProjectDemo.tsx:277-289 | the default icon is shown exactly when the extension is not in the table |
| FileIcons.FileIconIgnoresCase | src/components/ProjectDemo/ProjectDemo.tsx:276 | the icon does not depend on the letter case of the name |
| FileIcons.LastSegmentLower | src/components/ProjectDemo/ProjectDemo.tsx:276 | lower-casing commutes with taking the last segment |
| FileIcons.DotFileIcon | src/components/ProjectDemo/ProjectDemo.tsx:276-289 | a dot file such as `.gitignore` is looked up by the text after its dot |
| FileIcons.GitignoreIcon | src/components/ProjectDemo/ProjectDemo.tsx:287 | the `gitignore` extension has its own icon |
| FileIcons.NodeIcon | src/components/ProjectDemo/ProjectDemo.tsx:258 | a row shows the folder icon exactly when it is a folder |
| ProjectDemo.Branch | src/components/ProjectDemo/ProjectDemo.tsx:122 | a missing or empty default branch means `main`; otherwise the given one |
| ProjectDemo.Toggled | src/components/ProjectDemo/ProjectDemo.tsx:207-211 | the toggled path flips membership and every other path keeps it |
| ProjectDemo.ToggledTwice | src/components/ProjectDemo/ProjectDemo.tsx:207-211 | toggling twice restores the set |
| ProjectDemo.LoadsOnToggle | src/components/ProjectDemo/ProjectDemo.tsx:211-213 | a toggle requests a listing exactly when it opens an unloaded folder; GraftedFolderLoaded relies on it |
| ProjectDemo.Graft | src/components/ProjectDemo/ProjectDemo.tsx:214-219 | a rejected listing or a null tree leaves the tree as it is; otherwise the first node at the path is marked loaded with the listed children, every target node at any depth gets them, and nothing else in the tree changes |
| ProjectDemo.GraftedFolderLoaded | src/components/ProjectDemo/ProjectDemo.tsx:213-216 | once grafted, the folder is loaded, so opening it again requests nothing |
| ProjectDemo.NeedsFetch | src/components/ProjectDemo/ProjectDemo.tsx:235 | `!node.content`: the content is absent or empty; InjectedRefetch relies on it |
| ProjectDemo.Inject | src/components/ProjectDemo/ProjectDemo.tsx:240-248 | a null tree stays null; otherwise the first node at the path and every other target node at any depth get the content, and no other node's content or any other field changes |
| ProjectDemo.InjectedRefetch | src/components/ProjectDemo/ProjectDemo.tsx:235 | a file given non-empty text is not fetched again; one given `''` is refetched |
| ProjectDemo.DisplayedTree | src/components/ProjectDemo/ProjectDemo.tsx:344 | the fetched tree if any, else the project's own tree, else the mock tree |
| ProjectDemo.MockTreeWellFormed | src/components/ProjectDemo/ProjectDemo.tsx:293-342 | in the mock tree no file has children |
| ProjectDemo.Demo.constructor | src/components/ProjectDemo/ProjectDemo.tsx:31-37 | the hooks start empty: no selection, no expanded folder, no tree, no error, no repository |
| ProjectDemo.Demo.OpenProject | src/components/ProjectDemo/ProjectDemo.tsx:195-204 | a new GitHub URL loads the repository (or, with none, drops the tree), then clears the selection and collapses every folder |
| ProjectDemo.Demo.LoadRepoInfoAndRoot | src/components/ProjectDemo/ProjectDemo.tsx:114-132 | no URL or an unparsable one changes nothing; a failed request shows the error and drops the tree; otherwise the repository context (default branch or `main`) is stored and the root listing becomes the tree, or its failure shows the error |
| ProjectDemo.Demo.ToggleFolder | src/components/ProjectDemo/ProjectDemo.tsx:206-223 | the path is toggled in the expanded set; the tree changes only when an unloaded folder is opened, and then by grafting its listing; a failed listing is swallowed and the path stays expanded |
| ProjectDemo.Demo.ClickNode | src/components/ProjectDemo/ProjectDemo.tsx:230-255 | a folder row toggles; a file row is selected and, when its content is falsy, fetched and injected into the tree and the selection; a rejected fetch propagates and leaves the tree unchanged |
| Projects.OfCategory | src/views/Projects/Projects.tsx:91 | the filtered list holds exactly the projects of the category |
| Projects.OfCategoryAppend | src/views/Projects/Projects.tsx:91 | filtering keeps the original order |
| Projects.OfCategoryAll | src/views/Projects/Projects.tsx:91 | a list wholly in the category is its own filter |
| Projects.OfCategoryNone | src/views/Projects/Projects.tsx:91 | a category no project has filters to `[]` |
| Projects.FilterProjects | src/views/Projects/Projects.tsx:89-91 | `All` gives the whole list; any other category exactly its projects |
| Projects.PageCategories | src/views/Projects/Projects.tsx:24-85 | the page lists five projects, three full-stack then two frontend |
| Projects.NoBackendProject | src/views/Projects/Projects.tsx:24-87 | the `Backend` filter is empty |
| Projects.FrontendProjects | src/views/Projects/Projects.tsx:24-91 | the `Frontend` filter is the last two projects |
| Projects.FullStackProjects | src/views/Projects/Projects.tsx:24-91 | the `Full-Stack` filter is the first three projects |
| Projects.FilterPrefixIn | src/views/Projects/Projects.tsx:89-91 | when exactly the first k projects are of a category, its filter is that prefix, in order |
| Projects.FilterPrefixOut | src/views/Projects/Projects.tsx:89-91 | when exactly the projects from k on are of a category, its filter is that suffix, in order |
| Projects.NextIndex | src/views/Projects/Projects.tsx:110 | the next index is `min(i + 1, len - 1)` |
| Projects.PrevIndex | src/views/Projects/Projects.tsx:109 | the previous index is `max(i - 1, 0)` |
| Projects.MovesStayInRange | src/views/Projects/Projects.tsx:100-110 | in a non-empty list both moves keep the index in range |
| Projects.PrevDisabledAt | src/views/Projects/Projects.tsx:203 | Prev's `disabled`: the active index is 0; DisabledIffNoMove relates it to the move |
| Projects.NextDisabledAt | src/views/Projects/Projects.tsx:245 | Next's `disabled`: the active index is the last one; DisabledIffNoMove relates it to the move and EmptyListEdge covers the empty list |
| Projects.DisabledIffNoMove | src/views/Projects/Projects.tsx:203 | Prev is disabled exactly when it would not move; the same holds for Next (line 245) |
| Projects.EmptyListEdge | src/views/Projects/Projects.tsx:245 | on an empty list Next is enabled at 0 and moves to -1; Prev then moves back to 0 |
| Projects.CardPose | src/views/Projects/Projects.tsx:208-213 | each field as the style computes it from the offset (index minus active); ActiveCardOnTop, PoseMirror and PoseRecedes state what the pose means |
| Projects.ActiveCardOnTop | src/views/Projects/Projects.tsx:213 | zIndex is at most 100 and is 100 exactly at the active card, which sits unmoved |
| Projects.PoseMirror | src/views/Projects/Projects.tsx:208-213 | cards at equal distance on either side mirror each other |
| Projects.PoseRecedes | src/views/Projects/Projects.tsx:211-213 | a card nearer the active one lies above and in front of a farther one |
| Projects.ShowGithubLink | src/views/Projects/Projects.tsx:233 | the link shows when the source is not private and the URL is non-empty; GithubLinksOfThePage applies it to the page |
| Projects.GithubLinksOfThePage | src/views/Projects/Projects.tsx:233 | the GitHub link shows on the second, fourth and fifth projects only |
| Projects.Carousel.constructor | src/views/Projects/Projects.tsx:20-22 | the carousel starts at `All`, index 0, nothing open |
| Projects.Carousel.GoNext | src/views/Projects/Projects.tsx:110 | the index moves to `min(i + 1, len - 1)` and nothing else changes |
| Projects.Carousel.GoPrev | src/views/Projects/Projects.tsx:109 | the index moves to `max(i - 1, 0)` and nothing else changes |
| Projects.Carousel.KeyDown | src/views/Projects/Projects.tsx:98-104 | ArrowRight is Next, ArrowLeft is Prev, any other key does nothing |
| Projects.Carousel.SelectCategory | src/views/Projects/Projects.tsx:93-95 | choosing a different category resets the index to 0; choosing the same one leaves it |
| Projects.Carousel.ClickCard | src/views/Projects/Projects.tsx:222-224 | clicking another card only makes it active; clicking the active card opens it |
| Projects.Carousel.ClickView | src/views/Projects/Projects.tsx:237 | the View button opens its project without moving the carousel |
| Projects.Carousel.CloseDemo | src/views/Projects/Projects.tsx:260-265 | closing the modal clears the opened project |
| I18n.Translations | src/i18n/index.ts:9-379 | the table of 71 keys, each an entry with `en`, `vi` and `ko` texts; GetText states how it is read |
| I18n.GetText | src/i18n/index.ts:381-383 | a listed key with a non-empty text gives that text; a missing key or an empty text gives the key; a non-empty key never gives `''` |
| I18n.SavedLanguage | src/i18n/index.ts:386-389 | a saved value is a language exactly when it is one of `en`, `vi`, `ko` |
| I18n.BrowserLanguage | src/i18n/index.ts:392-395 | the lower-cased tag starting with `vi` gives Vietnamese, else `ko` Korean, else English |
| I18n.CurrentLanguage | src/i18n/index.ts:385-396 | a valid saved language wins; otherwise the browser's |
| I18n.SetThenGet | src/i18n/index.ts:385-401 | after saving a language, it is the current one whatever the browser says |
| I18n.BrowserLanguageIgnoresCase | src/i18n/index.ts:392 | the tag is compared without regard to case |
| I18n.RegionTag | src/i18n/index.ts:393-395 | a code followed by any region suffix (`vi-VN`, `ko-KR`, `en-US`) gives that language |
| I18n.UnknownSavedIgnored | src/i18n/index.ts:387-389 | any other saved value, `EN` included, falls through to the browser |
| I18n.LanguageStore.constructor | src/i18n/index.ts:386 | the store starts with the given storage and no event |
| I18n.LanguageStore.GetCurrentLanguage | src/i18n/index.ts:385-396 | reading the storage slot and the tag gives `CurrentLanguage` |
| I18n.LanguageStore.SetLanguage | src/i18n/index.ts:398-401 | the slot `language` holds the code and one `languageChanged` event is added |
| I18n.SetThenGetCurrent | src/i18n/index.ts:385-401 | `setLanguage(l)` then `getCurrentLanguage()` returns `l` |
| Home.ExactlyOneGuard | src/views/Home/Home.tsx:13-37 | while the index is within the headline exactly one of the four branches' conditions holds |
| Home.Branch | src/views/Home/Home.tsx:14-32 | the branch taken is one whose condition holds |
| Home.NextPhase | src/views/Home/Home.tsx:14-37 | the index stays within the headline |
| Home.TypingRun | src/views/Home/Home.tsx:14-19 | typing from i reaches the full headline after n - i timers of 150 ms |
| Home.DeletingRun | src/views/Home/Home.tsx:20-25 | deleting from i empties the line after i timers of 100 ms |
| Home.RunSplit | src/views/Home/Home.tsx:13-37 | timers compose: k + j timers are k timers then j more, and their delays add up |
| Home.Cycle | src/views/Home/Home.tsx:13-37 | from (0, typing) the machine is back at (0, typing) after 2·n + 2 timers, in 150·n + 2000 + 100·n + 1000 ms |
| Home.Typewriter.constructor | src/views/Home/Home.tsx:5-9 | the line starts empty, at index 0, typing |
| Home.Typewriter.Step | src/views/Home/Home.tsx:13-37 | a timer's callback keeps the line equal to the headline's first `currentIndex` characters, moves to the next phase and reports its delay |
| Home.FirstOccurrence | src/views/Home/Home.tsx:102-103 | a found position holds the separator |
| Home.FirstOccurrenceIsFirst | src/views/Home/Home.tsx:102-103 | no occurrence lies before the one found, and there is none when none is found |
| Home.Split | src/views/Home/Home.tsx:102-103 | `split(' - ')` always gives at least one piece |
| Home.SplitPiecesFree | src/views/Home/Home.tsx:102-103 | no piece of a split holds the separator |
| Home.SplitJoin | src/views/Home/Home.tsx:102-103 | splitting gives at least one piece, and joining the pieces with the separator gives the text back |
| Home.SplitAround | src/views/Home/Home.tsx:102-103 | `(a + sep + b).split(sep)` is `[a, b]` when a character of `sep` occurs once in it and never in `a` or `b` |
| Home.NameAndRole | src/views/Home/Home.tsx:9 | the headline splits into `Nguyen Tien Dat` and `Fullstack Dev` (lines 102-103) |
| Skills.CategorySkills | src/views/Skills/Skills.tsx:41-43 | the group holds exactly the skills of the category |
| Skills.CategorySkillsAppend | src/views/Skills/Skills.tsx:41-43 | the group keeps the original order |
| Skills.CategorySkillsAll | src/views/Skills/Skills.tsx:41-43 | a list wholly in the category is its own group |
| Skills.CategorySkillsNone | src/views/Skills/Skills.tsx:41-43 | a category no skill has gives an empty group |
| Skills.EachSkillShownOnce | src/views/Skills/Skills.tsx:59-63 | with distinct categories covering every skill, each skill is drawn in exactly one group |
| Skills.SkillCategories | src/views/Skills/Skills.tsx:13-26 | every skill belongs to Frontend, Backend, Database or Tools |
| Skills.SectionShowsEverySkill | src/views/Skills/Skills.tsx:39 | the section's groups draw all fourteen skills once each (lines 59-63) |
| Skills.CloudIsEmpty | src/views/Skills/Skills.tsx:39 | the `Cloud` group is empty |
| Skills.LevelsArePercentages | src/views/Skills/Skills.tsx:13-26 | every level lies in 0..100 |
| Skills.BarWidth | src/views/Skills/Skills.tsx:73 | the width is the level once the skill is animated, 0 before, and a percentage whenever the level is |
| Skills.GroupCards | src/views/Skills/Skills.tsx:63-74 | the group's cards, in order, carry their skill, its bar width and the delay `index·100` |
| Skills.Staggered | src/views/Skills/Skills.tsx:74 | cards i < j start (j - i)·100 ms apart |
| Skills.WidthsArePercentages | src/views/Skills/Skills.tsx:73 | every bar of the section is between 0 and 100 |
| Skills.SkillsSection.constructor | src/views/Skills/Skills.tsx:29 | no bar is animated at mount |
| Skills.SkillsSection.TimerFires | src/views/Skills/Skills.tsx:31-37 | the timer animates every skill at once |
| Skills.AnimationFlip | src/views/Skills/Skills.tsx:29-37 | before the timer every width is 0; after it every width is the level (line 73) |
| Text.Lower | src/components/ProjectDemo/ProjectDemo.tsx:156-157 | lower-casing keeps the length and maps each character |
| Text.LexLeTotal | src/components/ProjectDemo/ProjectDemo.tsx:158-159 | the string order compares any two strings |
| Text.LexLeTrans | src/components/ProjectDemo/ProjectDemo.tsx:158-159 | the string order is transitive |

## Left out

- Network I/O is not modelled: `fetch`, `fetchJson`, the endpoint URLs and `encodeURIComponent`. Each reply is an input: repository metadata (OK or not, with a default branch), a listing (not OK, not an array, or items), file metadata, and the raw reply.
- Case folding: `toLowerCase` is modelled for ASCII letters only.
- String order: `<` is compared by `char` order, not UTF-16 code units.
- `atob` is the parameter `decode`; base64 itself is not modelled. A decode that throws is `None`.
- Async interleaving is not modelled. Every handler runs to completion, so overlapping `toggleFolder` calls that capture `expandedFolders` before their `await` are not captured. Neither is the stale `iframeLoaded` closure of the iframe fallback timer (ProjectDemo.tsx:86-93).
- `loaded` is a boolean: the mock tree's absent `loaded` reads as `false`, as it does where the component tests it.
- Listing.SortLevel: the browser's `Array.prototype.sort` is modelled as a stable insertion sort with the same comparator. `Array.prototype.sort` is required to be stable, so nodes that compare equal keep their listing order; the insertion sort does exactly that, so the model's order is the source's order.
- Rendering is not modelled: JSX, CSS classes, emoji, `renderFileTree`'s indentation, the static project copy (titles, descriptions, technologies, images, demo URLs), the icon glyphs themselves (named by the `Icon` datatype) and the skills' icons.
- Floating-point layout is not modelled: the ResizeObserver scale and translate in both components, and the carousel's `scale = max(0.8, …)` (Projects.tsx:212).
- The mock tree (ProjectDemo.tsx:293-342) is data for `DisplayedTree`; the only lemma about it is that it is well formed.
- GithubRepo.ParseGithubRepo: the `try`/`catch` around `match` cannot fire on a string and is not modelled. Concrete owner/repo parses are not stated one URL at a time; ParseOwnerRepo covers them for every input of that shape.
- I18n.GetText: only the rules of the lookup are proved. No lemma looks up a particular key, because key-by-key comparison over the 71-key table is too costly to verify.
- I18n: that every entry defines all three languages holds by construction, since `Entry` has exactly the fields `en`, `vi` and `ko`.
- `LanguageContext.tsx` (which listens for `languageChanged`) and `LanguageSwitcher.tsx` are not part of this model. `SetLanguage` only records the dispatched events.
- Skills: `animatedSkills.includes(skill)` compares objects by identity. The model compares skills by value, which is the same because the names are distinct.
- The unmount paths are not modelled: the timers' `clearTimeout` cleanups in Home and Skills, and the removal of the keydown listener.
