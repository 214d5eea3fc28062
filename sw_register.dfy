/**
 * The service-worker script URL the registrar derives from the page's
 * location (`getSWUrl`).
 */
module SwRegister {
  import opened Wrappers
  import opened Text

  const ScriptName := "/sw.js"
  /** The repository path used on GitHub Pages when the path names none. */
  const DefaultRepo := "revisi2"

  predicate IsLocalHost(hostname: string) {
    hostname == "localhost" || hostname == "127.0.0.1"
  }

  /** `pathname.split("/")[1] || "revisi2"`. */
  function RepoName(pathname: string): (r: string)
    ensures r != ""
  {
    var parts := Split(pathname, "/");
    if |parts| >= 2 && parts[1] != "" then parts[1] else DefaultRepo
  }

  /** `getSWUrl`: local hosts and other hosts use `/sw.js`; GitHub Pages prefixes the repository. */
  function GetSwUrl(hostname: string, pathname: string): (r: string)
    ensures IsLocalHost(hostname) ==> r == ScriptName
    ensures !IsLocalHost(hostname) && Contains(hostname, "github.io") ==> r == "/" + RepoName(pathname) + ScriptName
    ensures !IsLocalHost(hostname) && !Contains(hostname, "github.io") ==> r == ScriptName
    ensures |r| >= |ScriptName| && r[|r| - |ScriptName|..] == ScriptName
  {
    if IsLocalHost(hostname) then ScriptName
    else if Contains(hostname, "github.io") then
      var r := "/" + RepoName(pathname) + ScriptName;
      assert r[|r| - |ScriptName|..] == ScriptName;
      r
    else ScriptName
  }

  /** A string opening with `/` splits into `""` and the segments of the rest. */
  lemma LeadingSlash(t: string)
    ensures Split("/" + t, "/") == [""] + Split(t, "/")
  {
    var s := "/" + t;
    assert OccursAt(s, "/", 0) by {
      assert s[0..1] == "/";
    }
    IndexOfAt(s, "/", 0);
    SplitAt(s, "/", 0);
    assert s[1..] == t;
  }

  /** Text without `/` followed by `/` is the first segment. */
  lemma SegmentFirst(segment: string, rest: string)
    requires '/' !in segment
    ensures Split(segment + "/" + rest, "/")[0] == segment
  {
    var t := segment + "/" + rest;
    assert OccursAt(t, "/", |segment|) by {
      assert t[|segment|..|segment| + 1] == "/";
    }
    forall j | 0 <= j < |segment| ensures !OccursAt(t, "/", j) {
      assert t[j] == segment[j];
    }
    IndexOfAt(t, "/", |segment|);
    SplitAt(t, "/", |segment|);
    assert t[..|segment|] == segment;
  }

  /** The first path segment is the text between the leading `/` and the next one. */
  lemma FirstSegment(segment: string, rest: string)
    requires '/' !in segment
    ensures Split("/" + segment + "/" + rest, "/")[1] == segment
  {
    assert "/" + segment + "/" + rest == "/" + (segment + "/" + rest);
    LeadingSlash(segment + "/" + rest);
    SegmentFirst(segment, rest);
  }

  /** On GitHub Pages the script sits under the repository named by the path. */
  lemma GitHubPagesUrl(hostname: string, repo: string, rest: string)
    requires !IsLocalHost(hostname) && Contains(hostname, "github.io")
    requires repo != "" && '/' !in repo
    ensures GetSwUrl(hostname, "/" + repo + "/" + rest) == "/" + repo + "/sw.js"
  {
    FirstSegment(repo, rest);
  }

  /** Text without `/` is a single segment. */
  lemma NoSlashSplit(t: string)
    requires '/' !in t
    ensures Split(t, "/") == [t]
  {
    forall j | 0 <= j ensures !OccursAt(t, "/", j) {
      if j < |t| {
        assert t[j..j + 1][0] == t[j];
      }
    }
  }

  /** A path naming only the repository, without a trailing `/`, also selects it. */
  lemma GitHubPagesRepoOnly(hostname: string, repo: string)
    requires !IsLocalHost(hostname) && Contains(hostname, "github.io")
    requires repo != "" && '/' !in repo
    ensures GetSwUrl(hostname, "/" + repo) == "/" + repo + "/sw.js"
  {
    LeadingSlash(repo);
    NoSlashSplit(repo);
  }

  /** At the site root of GitHub Pages the default repository is used. */
  lemma GitHubPagesRoot(hostname: string)
    requires !IsLocalHost(hostname) && Contains(hostname, "github.io")
    ensures GetSwUrl(hostname, "/") == "/revisi2/sw.js"
  {
    LeadingSlash("");
    assert "/" + "" == "/";
  }
}
