/**
 * `parseGithubRepo` (src/components/ProjectDemo/ProjectDemo.tsx): the owner
 * and repository named by a GitHub URL, found by the regular expression
 * `/github\.com\/(.*?)\/(.*?)(?:$|\.|\/)/i`.
 *
 * The expression is modelled by a direct scan. At a start position the
 * host must match case-insensitively; the lazy owner group then ends at the
 * first `/`, and the lazy repository group at the first `.`, `/` or the end
 * of the input. `.` matches no line terminator, so a line terminator before
 * either end makes the attempt at that position fail. Backtracking cannot
 * rescue such an attempt: a longer owner would have to reach a later `/`
 * across that line terminator. The engine then tries the next start
 * position; the leftmost successful attempt is the result.
 */
module GithubRepo {
  import opened Wrappers
  import opened Text

  datatype RepoRef = RepoRef(owner: string, repo: string)

  /** The length of `github.com/`. */
  const HostLength := 11

  /** The characters JavaScript's `.` does not match. */
  predicate LineTerminator(c: char)
  {
    c == '\n' || c == '\r' || c == '\U{2028}' || c == '\U{2029}'
  }

  predicate NoLineTerminator(s: string)
  {
    '\n' !in s && '\r' !in s && '\U{2028}' !in s && '\U{2029}' !in s
  }

  /** `github\.com\/` matches at `i`, letters compared case-insensitively. */
  predicate HostAt(url: string, i: nat)
  {
    i + HostLength <= |url| && Lower(url[i..i + HostLength]) == "github.com/"
  }

  /** The `/` that ends the lazy owner group started at `j`, if the attempt gets that far. */
  function OwnerEnd(url: string, j: nat): (r: Option<nat>)
    decreases |url| - j
    ensures r.Some? ==> j <= r.value < |url| && url[r.value] == '/'
    ensures r.Some? ==> '/' !in url[j..r.value] && NoLineTerminator(url[j..r.value])
  {
    if j >= |url| then None
    else if url[j] == '/' then Some(j)
    else if LineTerminator(url[j]) then None
    else
      var r := OwnerEnd(url, j + 1);
      assert r.Some? ==> url[j..r.value] == [url[j]] + url[j + 1..r.value];
      r
  }

  /** Where the lazy repository group started at `j` ends: before `.`, `/` or the end. */
  function RepoEnd(url: string, j: nat): (r: Option<nat>)
    requires j <= |url|
    decreases |url| - j
    ensures r.Some? ==> j <= r.value <= |url| && (r.value == |url| || url[r.value] == '.' || url[r.value] == '/')
    ensures r.Some? ==> '/' !in url[j..r.value] && '.' !in url[j..r.value] && NoLineTerminator(url[j..r.value])
  {
    if j == |url| || url[j] == '.' || url[j] == '/' then Some(j)
    else if LineTerminator(url[j]) then None
    else
      var r := RepoEnd(url, j + 1);
      assert r.Some? ==> url[j..r.value] == [url[j]] + url[j + 1..r.value];
      r
  }

  /** The attempt of the expression at start position `i`. */
  function MatchAt(url: string, i: nat): Option<RepoRef>
  {
    if !HostAt(url, i) then None
    else match OwnerEnd(url, i + HostLength)
      case None => None
      case Some(k) =>
        match RepoEnd(url, k + 1)
        case None => None
        case Some(m) => Some(RepoRef(url[i + HostLength..k], url[k + 1..m]))
  }

  /** The leftmost successful attempt at or after `i`. */
  function ParseFrom(url: string, i: nat): Option<RepoRef>
    requires i <= |url|
    decreases |url| - i
  {
    if MatchAt(url, i).Some? then MatchAt(url, i)
    else if i == |url| then None
    else ParseFrom(url, i + 1)
  }

  /**
   * `parseGithubRepo(url)`. The owner never contains `/`, the repository
   * never contains `/` or `.`, and neither contains a line terminator.
   * (`String.prototype.match` cannot throw here, so the `catch` is dead.)
   */
  function ParseGithubRepo(url: string): (r: Option<RepoRef>)
    ensures r.Some? ==> '/' !in r.value.owner && NoLineTerminator(r.value.owner)
    ensures r.Some? ==> '/' !in r.value.repo && '.' !in r.value.repo && NoLineTerminator(r.value.repo)
  {
    ParseFromSegments(url, 0);
    ParseFrom(url, 0)
  }

  /**
   * The independent description of a match of the expression at `i`: the
   * host, then `owner`, a `/`, then `repo`, followed by the end, `.` or `/`.
   */
  predicate Matches(url: string, i: nat, ref: RepoRef)
  {
    var o := i + HostLength;
    var k := o + |ref.owner|;
    var tail := k + 1 + |ref.repo|;
    HostAt(url, i) &&
    tail <= |url| &&
    url[o..k] == ref.owner && url[k] == '/' && url[k + 1..tail] == ref.repo &&
    (tail == |url| || url[tail] == '.' || url[tail] == '/') &&
    '/' !in ref.owner && NoLineTerminator(ref.owner) &&
    '/' !in ref.repo && '.' !in ref.repo && NoLineTerminator(ref.repo)
  }

  lemma ParseFromSegments(url: string, i: nat)
    requires i <= |url|
    ensures ParseFrom(url, i).Some? ==>
              '/' !in ParseFrom(url, i).value.owner && NoLineTerminator(ParseFrom(url, i).value.owner) &&
              '/' !in ParseFrom(url, i).value.repo && '.' !in ParseFrom(url, i).value.repo &&
              NoLineTerminator(ParseFrom(url, i).value.repo)
    decreases |url| - i
  {
    if MatchAt(url, i).None? && i < |url| {
      ParseFromSegments(url, i + 1);
    }
  }

  /** The owner group ends at the first `/` when no line terminator comes before it. */
  lemma {:induction false} OwnerEndFinds(url: string, j: nat, owner: string)
    requires j + |owner| < |url| && url[j..j + |owner|] == owner && url[j + |owner|] == '/'
    requires '/' !in owner && NoLineTerminator(owner)
    ensures OwnerEnd(url, j) == Some(j + |owner|)
    decreases |owner|
  {
    if owner != [] {
      assert url[j] == owner[0];
      assert url[j + 1..j + 1 + |owner[1..]|] == owner[1..];
      OwnerEndFinds(url, j + 1, owner[1..]);
    }
  }

  /** The repository group ends at the first `.`, `/` or the end when no line terminator comes before it. */
  lemma {:induction false} RepoEndFinds(url: string, j: nat, repo: string)
    requires j + |repo| <= |url| && url[j..j + |repo|] == repo
    requires j + |repo| == |url| || url[j + |repo|] == '.' || url[j + |repo|] == '/'
    requires '/' !in repo && '.' !in repo && NoLineTerminator(repo)
    ensures RepoEnd(url, j) == Some(j + |repo|)
    decreases |repo|
  {
    if repo != [] {
      assert url[j] == repo[0];
      assert url[j + 1..j + 1 + |repo[1..]|] == repo[1..];
      RepoEndFinds(url, j + 1, repo[1..]);
    }
  }

  /** A successful attempt is a match. */
  lemma MatchAtSound(url: string, i: nat, ref: RepoRef)
    requires MatchAt(url, i) == Some(ref)
    ensures Matches(url, i, ref)
  {
  }

  /** A match is what the attempt at that position finds. */
  lemma MatchAtComplete(url: string, i: nat, ref: RepoRef)
    requires Matches(url, i, ref)
    ensures MatchAt(url, i) == Some(ref)
  {
    var o := i + HostLength;
    var k := o + |ref.owner|;
    OwnerEndFinds(url, o, ref.owner);
    RepoEndFinds(url, k + 1, ref.repo);
  }

  /** An attempt succeeds with `ref` exactly when `ref` matches there. */
  lemma MatchAtIff(url: string, i: nat, ref: RepoRef)
    ensures MatchAt(url, i) == Some(ref) <==> Matches(url, i, ref)
  {
    if MatchAt(url, i) == Some(ref) {
      MatchAtSound(url, i, ref);
    }
    if Matches(url, i, ref) {
      MatchAtComplete(url, i, ref);
    }
  }

  lemma {:induction false} ParseFromFirst(url: string, i: nat, p: nat, ref: RepoRef)
    requires i <= p <= |url| && MatchAt(url, p) == Some(ref)
    requires forall j :: i <= j < p ==> MatchAt(url, j).None?
    ensures ParseFrom(url, i) == Some(ref)
    decreases p - i
  {
    if i < p {
      ParseFromFirst(url, i + 1, p, ref);
    }
  }

  lemma {:induction false} ParseFromSound(url: string, i: nat)
    requires i <= |url| && ParseFrom(url, i).Some?
    ensures exists p: nat :: i <= p <= |url| && MatchAt(url, p) == ParseFrom(url, i) &&
                             forall j :: i <= j < p ==> MatchAt(url, j).None?
    decreases |url| - i
  {
    if MatchAt(url, i).None? {
      ParseFromSound(url, i + 1);
      var p: nat :| i + 1 <= p <= |url| && MatchAt(url, p) == ParseFrom(url, i + 1) &&
                    forall j :: i + 1 <= j < p ==> MatchAt(url, j).None?;
      assert forall j :: i <= j < p ==> MatchAt(url, j).None?;
    }
  }

  /** A result is a match of the expression, and no earlier position matches. */
  lemma ParseSound(url: string, ref: RepoRef)
    requires ParseGithubRepo(url) == Some(ref)
    ensures exists p: nat :: p <= |url| && Matches(url, p, ref) && forall j :: 0 <= j < p ==> MatchAt(url, j).None?
  {
    ParseFromSound(url, 0);
    var p: nat :| p <= |url| && MatchAt(url, p) == Some(ref) && forall j :: 0 <= j < p ==> MatchAt(url, j).None?;
    MatchAtSound(url, p, ref);
  }

  /** A match at the first occurrence of the host is the result. */
  lemma ParseComplete(url: string, p: nat, ref: RepoRef)
    requires Matches(url, p, ref)
    requires forall j :: 0 <= j < p ==> !HostAt(url, j)
    ensures ParseGithubRepo(url) == Some(ref)
  {
    MatchAtComplete(url, p, ref);
    ParseFromFirst(url, 0, p, ref);
  }

  lemma {:induction false} ParseFromNone(url: string, i: nat)
    requires i <= |url|
    requires forall j :: i <= j <= |url| ==> MatchAt(url, j).None?
    ensures ParseFrom(url, i) == None
    decreases |url| - i
  {
    if i < |url| {
      ParseFromNone(url, i + 1);
    }
  }

  /** With no `github.com/` anywhere (in any letter case) there is no result. */
  lemma ParseNoHost(url: string)
    requires forall j :: 0 <= j <= |url| ==> !HostAt(url, j)
    ensures ParseGithubRepo(url) == None
  {
    ParseFromNone(url, 0);
  }

  /** No host can start inside a prefix that holds no `g` or `G`. */
  lemma NoHostIn(url: string, prefix: string)
    requires |prefix| <= |url| && url[..|prefix|] == prefix && 'g' !in prefix && 'G' !in prefix
    ensures forall j :: 0 <= j < |prefix| ==> !HostAt(url, j)
  {
    forall j | 0 <= j < |prefix|
      ensures !HostAt(url, j)
    {
      assert url[j] == prefix[j];
      if j + HostLength <= |url| {
        var w := url[j..j + HostLength];
        assert Lower(w)[0] == LowerChar(w[0]) && w[0] == url[j];
      }
    }
  }

  /** The segment conditions of `ParseOwnerRepo`, one name at a time. */
  predicate OwnerName(s: string) { '/' !in s && NoLineTerminator(s) }
  predicate RepoName(s: string) { '/' !in s && '.' !in s && NoLineTerminator(s) }

  /**
   * The shape of every URL in the projects list: a prefix without `g`, the
   * host in any letter case, `owner/repo`, then the end, `.` or `/`.
   */
  lemma ParseOwnerRepo(prefix: string, host: string, owner: string, repo: string, rest: string)
    requires 'g' !in prefix && 'G' !in prefix && |host| == HostLength && Lower(host) == "github.com/"
    requires OwnerName(owner) && RepoName(repo)
    requires rest == [] || rest[0] == '.' || rest[0] == '/'
    ensures ParseGithubRepo(prefix + host + owner + "/" + repo + rest) == Some(RepoRef(owner, repo))
  {
    var url := prefix + host + owner + "/" + repo + rest;
    MatchesAfterPrefix(prefix, host, owner, repo, rest);
    NoHostIn(url, prefix);
    ParseComplete(url, |prefix|, RepoRef(owner, repo));
  }

  lemma MatchesAfterPrefix(prefix: string, host: string, owner: string, repo: string, rest: string)
    requires |host| == HostLength && Lower(host) == "github.com/"
    requires '/' !in owner && NoLineTerminator(owner)
    requires '/' !in repo && '.' !in repo && NoLineTerminator(repo)
    requires rest == [] || rest[0] == '.' || rest[0] == '/'
    ensures var url := prefix + host + owner + "/" + repo + rest;
            |prefix| <= |url| && url[..|prefix|] == prefix && Matches(url, |prefix|, RepoRef(owner, repo))
  {
    var after := owner + "/" + repo + rest;
    var url := prefix + host + owner + "/" + repo + rest;
    assert url == prefix + host + after;
    var p := |prefix|;
    var o := p + HostLength;
    assert url[..p] == prefix;
    assert url[p..o] == host;
    assert url[o..] == after;
    AfterHost(url, o, owner, repo, rest);
  }

  lemma AfterHost(url: string, o: nat, owner: string, repo: string, rest: string)
    requires o <= |url| && url[o..] == owner + "/" + repo + rest
    ensures o + |owner| + 1 + |repo| <= |url|
    ensures url[o..o + |owner|] == owner && url[o + |owner|] == '/'
    ensures url[o + |owner| + 1..o + |owner| + 1 + |repo|] == repo
    ensures o + |owner| + 1 + |repo| < |url| ==> url[o + |owner| + 1 + |repo|] == rest[0]
  {
    var a := url[o..];
    assert a[..|owner|] == owner;
    assert a[|owner|] == '/';
    assert a[|owner| + 1..|owner| + 1 + |repo|] == repo;
  }

  // ----- The repositories of the projects list, and the other cases -----

  /** Only `github.com` is recognised: another host gives no result. */
  lemma ParseOtherHost()
    ensures ParseGithubRepo("https://host/acme/widgets") == None
  {
    var url := "https://host/acme/widgets";
    assert url == "https://host/ac" + "me/widgets";
    NoHostIn(url, "https://host/ac");
    ParseNoHost(url);
  }

  /** The source's placeholder `#` names no repository. */
  lemma ParseHash()
    ensures ParseGithubRepo("#") == None
  {
    ParseNoHost("#");
  }

  /** Without the `/` after the owner there is no match. */
  lemma ParseNoOwnerSlash()
    ensures ParseGithubRepo("github.com/acme") == None
  {
    var url := "github.com/acme";
    forall j | 0 <= j <= |url|
      ensures MatchAt(url, j).None?
    {
      if j == 0 {
        assert url[11..] == "acme";
        assert OwnerEnd(url, 11) == None by {
          assert OwnerEnd(url, 15) == None;
        }
      }
    }
    ParseFromNone(url, 0);
  }
}
