/**
 * `loadFileContent` of the project-demo modal
 * (src/components/ProjectDemo/ProjectDemo.tsx): the metadata request, the
 * base64 branch, and the raw-text fallback with its placeholder texts.
 */
module FileContent {
  import opened Wrappers
  import opened Listing

  /** The reply to the metadata request, as `fetchJson` sees it. */
  datatype MetaReply =
    | MetaNotOk                                          // `fetchJson` throws
    | MetaJson(content: Option<string>, encoding: Option<string>)   // `null` data has neither

  /** The reply to the raw request: `fetch` rejects, or answers with a status and a body. */
  datatype RawReply = RawRejected | RawResponse(ok: bool, text: string)

  const DecodeFailure: string := "// Unable to decode file content"
  const Unavailable: string := "// File content not available"

  /** `s.replace(/\n/g, '')`: every line feed removed, nothing else touched. */
  function StripNewlines(s: string): (r: string)
    ensures '\n' !in r
    ensures |r| <= |s|
    ensures '\n' !in s ==> r == s
  {
    if s == [] then []
    else if s[0] == '\n' then StripNewlines(s[1..])
    else [s[0]] + StripNewlines(s[1..])
  }

  lemma {:induction false} StripNewlinesAppend(a: string, b: string)
    ensures StripNewlines(a + b) == StripNewlines(a) + StripNewlines(b)
  {
    if a != [] {
      assert (a + b)[1..] == a[1..] + b;
      StripNewlinesAppend(a[1..], b);
    } else {
      assert a + b == b;
    }
  }

  /** Removing line feeds keeps every other character, in order. */
  lemma {:induction false} StripNewlinesKeeps(s: string, c: char)
    requires c != '\n'
    ensures multiset(StripNewlines(s))[c] == multiset(s)[c]
  {
    if s != [] {
      StripNewlinesKeeps(s[1..], c);
      assert s == [s[0]] + s[1..];
    }
  }

  lemma StripNewlinesIdempotent(s: string)
    ensures StripNewlines(StripNewlines(s)) == StripNewlines(s)
  {
  }

  /** The metadata carries base64 content: `data && data.content && data.encoding === 'base64'`. */
  predicate Base64Content(meta: MetaReply)
  {
    meta.MetaJson? && meta.content.Some? && meta.content.value != "" &&
    meta.encoding == Some("base64")
  }

  /**
   * `loadFileContent(path)`. Without a repository the text is empty and
   * nothing is requested. Otherwise a non-OK metadata reply rejects; base64
   * content is decoded by `atob` (`decode`, which fails as `atob` throws) on
   * the content without line feeds, a failure giving `DecodeFailure`; any
   * other metadata leads to the raw request, whose OK body is the text and
   * whose other statuses give `Unavailable`.
   */
  function LoadFileContent(repo: Option<RepoCtx>, meta: MetaReply, raw: RawReply,
                           decode: string -> Option<string>): (r: Outcome<string>)
    ensures repo.None? ==> r == Done("")
    ensures repo.Some? && meta.MetaNotOk? ==> r == Threw
    ensures repo.Some? && Base64Content(meta) ==>
              r == Done(match decode(StripNewlines(meta.content.value))
                        case Some(text) => text
                        case None => DecodeFailure)
    ensures repo.Some? && meta.MetaJson? && !Base64Content(meta) ==>
              r == (match raw
                    case RawRejected => Threw
                    case RawResponse(ok, text) => Done(if ok then text else Unavailable))
  {
    if repo.None? then Done("")
    else if meta.MetaNotOk? then Threw
    else if Base64Content(meta) then
      match decode(StripNewlines(meta.content.value))
      case Some(text) => Done(text)
      case None => Done(DecodeFailure)
    else
      match raw
      case RawRejected => Threw
      case RawResponse(ok, text) => if ok then Done(text) else Done(Unavailable)
  }

  /** How many requests `loadFileContent` sends: none, the metadata only, or both. */
  function RequestCount(repo: Option<RepoCtx>, meta: MetaReply): (n: nat)
    ensures n <= 2
    ensures n == 0 <==> repo.None?
    ensures n == 2 <==> repo.Some? && meta.MetaJson? && !Base64Content(meta)
  {
    if repo.None? then 0
    else if meta.MetaNotOk? || Base64Content(meta) then 1
    else 2
  }

  /** The raw reply matters only when the metadata was answered without base64 content. */
  lemma RawReplyIrrelevant(repo: Option<RepoCtx>, meta: MetaReply, raw1: RawReply, raw2: RawReply,
                           decode: string -> Option<string>)
    requires RequestCount(repo, meta) < 2
    ensures LoadFileContent(repo, meta, raw1, decode) == LoadFileContent(repo, meta, raw2, decode)
  {
  }

  /** A text is never empty once a repository answered, except when the body itself is empty. */
  lemma LoadedTextNonEmpty(repo: Option<RepoCtx>, meta: MetaReply, raw: RawReply,
                           decode: string -> Option<string>)
    requires repo.Some?
    requires LoadFileContent(repo, meta, raw, decode) == Done("")
    ensures (Base64Content(meta) && decode(StripNewlines(meta.content.value)) == Some("")) ||
            (meta.MetaJson? && !Base64Content(meta) && raw == RawResponse(true, ""))
  {
  }
}
