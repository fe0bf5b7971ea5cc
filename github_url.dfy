/** Recognising GitHub repository URLs and taking the repository name out of them.  The
    original uses regular expressions; here each pattern is an explicit character-level test.
    `\w` is taken as ASCII letters, digits and `_`. */
module GithubUrl {
  import opened Wrappers
  import opened Text

  /** The class `[\w\-\.]` of owner and repository names. */
  predicate IsNameChar(c: char)
  {
    ('a' <= c <= 'z') || ('A' <= c <= 'Z') || ('0' <= c <= '9') || c == '_' || c == '-' || c == '.'
  }

  /** `[\w\-\.]+` */
  predicate IsName(s: string)
  {
    |s| > 0 && forall i :: 0 <= i < |s| ==> IsNameChar(s[i])
  }

  /** The text a pattern ending in `$` is matched against: Python's `$` also matches just
      before a newline that ends the string. */
  function Chomp(s: string): (r: string)
  {
    if |s| > 0 && s[|s| - 1] == '\n' then s[..|s| - 1] else s
  }

  /** The optional `/?` before the end. */
  function DropSlash(s: string): (r: string)
  {
    if |s| > 0 && s[|s| - 1] == '/' then s[..|s| - 1] else s
  }

  const Host := "github.com"
  const HttpsPrefix := "https://" + Host + "/"
  const SshPrefix := "git@" + Host + ":"

  /** `[\w\-\.]+/[\w\-\.]+` covering all of `s`. */
  predicate OwnerRepo(s: string)
  {
    var i := LastIndexOf(s, '/');
    i >= 0 && IsName(s[..i]) && IsName(s[i + 1..])
  }

  /** `re.match(r'https://github\.com/[\w\-\.]+/[\w\-\.]+/?$', url)` on the text `b` the `$`
      sees. */
  predicate HttpsForm(b: string)
  {
    StartsWith(b, HttpsPrefix) && OwnerRepo(DropSlash(b[|HttpsPrefix|..]))
  }

  /** `re.match(r'git@github\.com:[\w\-\.]+/[\w\-\.]+\.git$', url)` on the text `b` the `$`
      sees. */
  predicate SshForm(b: string)
  {
    |b| >= |SshPrefix| + 4 && StartsWith(b, SshPrefix) && EndsWith(b, ".git") &&
    OwnerRepo(b[|SshPrefix|..|b| - 4])
  }

  /** `validate_github_url` */
  function ValidateGithubUrl(url: string): (ok: bool)
  {
    var b := Chomp(url);
    HttpsForm(b) || SshForm(b)
  }

  /** The two accepted shapes of a repository URL. */
  datatype RepoUrl =
    | Https(owner: string, repo: string, slash: bool)
    | Ssh(owner: string, repo: string)

  predicate WellFormed(u: RepoUrl)
  {
    IsName(u.owner) && IsName(u.repo)
  }

  /** The URL text of `u`; an SSH URL ends in `.git` after the repository name. */
  function Render(u: RepoUrl): (url: string)
  {
    match u
    case Https(owner, repo, slash) => HttpsPrefix + (owner + "/" + repo + (if slash then "/" else ""))
    case Ssh(owner, repo) => SshPrefix + (owner + "/" + repo) + ".git"
  }

  lemma OwnerRepoOf(owner: string, repo: string)
    requires IsName(owner) && IsName(repo)
    ensures OwnerRepo(owner + "/" + repo)
  {
    NoSlashInName(repo);
    LastIndexAfter(owner, repo, '/');
    var s := owner + "/" + repo;
    assert s[..|owner|] == owner;
    assert s[|owner| + 1..] == repo;
  }

  /** The owner and repository of an `OwnerRepo` text. */
  lemma OwnerRepoParts(s: string) returns (owner: string, repo: string)
    requires OwnerRepo(s)
    ensures IsName(owner) && IsName(repo) && s == owner + "/" + repo
  {
    var i := LastIndexOf(s, '/');
    owner, repo := s[..i], s[i + 1..];
    assert s == s[..i] + [s[i]] + s[i + 1..];
  }

  lemma PrefixSplit(p: string, rest: string, b: string)
    requires b == p + rest
    ensures StartsWith(b, p) && b[|p|..] == rest
  {
    assert b[..|p|] == p;
  }

  /** A URL that does not end in a newline: `Chomp` leaves it alone and removes one newline
      added after it. */
  lemma ChompNewline(url: string)
    requires |url| > 0 && url[|url| - 1] != '\n'
    ensures Chomp(url) == url && Chomp(url + "\n") == url
  {
    assert (url + "\n")[..|url|] == url;
  }

  lemma RenderValidHttps(owner: string, repo: string, slash: bool)
    requires WellFormed(Https(owner, repo, slash))
    ensures HttpsForm(Render(Https(owner, repo, slash)))
  {
    var url := Render(Https(owner, repo, slash));
    var rest := owner + "/" + repo;
    var tail := rest + (if slash then "/" else "");
    OwnerRepoOf(owner, repo);
    assert url == HttpsPrefix + tail;
    PrefixSplit(HttpsPrefix, tail, url);
    assert url[|url| - 1] == tail[|tail| - 1];
    assert IsNameChar(repo[|repo| - 1]);
    assert rest[|rest| - 1] == repo[|repo| - 1];
    assert DropSlash(tail) == rest;
    ChompNewline(url);
  }

  lemma RenderValidSsh(owner: string, repo: string)
    requires WellFormed(Ssh(owner, repo))
    ensures SshForm(Render(Ssh(owner, repo)))
  {
    var url := Render(Ssh(owner, repo));
    var rest := owner + "/" + repo;
    OwnerRepoOf(owner, repo);
    assert url == SshPrefix + (rest + ".git");
    PrefixSplit(SshPrefix, rest + ".git", url);
    assert url[|url| - 4..] == ".git";
    assert url[|SshPrefix|..|url| - 4] == rest;
    ChompNewline(url);
  }

  /** A rendered URL ends in a name character, `/` or `t`: `Chomp` leaves it alone and removes
      one newline added after it. */
  lemma ChompRender(u: RepoUrl)
    requires WellFormed(u)
    ensures Chomp(Render(u)) == Render(u) && Chomp(Render(u) + "\n") == Render(u)
  {
    var url := Render(u);
    assert IsNameChar(u.repo[|u.repo| - 1]);
    if u.Https? {
      assert url[|url| - 1] == (if u.slash then '/' else u.repo[|u.repo| - 1]);
    } else {
      assert url[|url| - 1] == 't';
    }
    ChompNewline(url);
  }

  /** Every well-formed repository URL is accepted, also with a newline after it. */
  lemma RenderValid(u: RepoUrl)
    requires WellFormed(u)
    ensures ValidateGithubUrl(Render(u)) && ValidateGithubUrl(Render(u) + "\n")
  {
    ChompRender(u);
    if u.Https? {
      RenderValidHttps(u.owner, u.repo, u.slash);
    } else {
      RenderValidSsh(u.owner, u.repo);
    }
  }

  lemma PrefixJoin(p: string, b: string)
    requires StartsWith(b, p)
    ensures b == p + b[|p|..]
  {
    assert b == b[..|p|] + b[|p|..];
  }

  lemma ValidParsesHttps(b: string) returns (u: RepoUrl)
    requires HttpsForm(b)
    ensures u.Https? && WellFormed(u) && b == Render(u)
  {
    var rest := b[|HttpsPrefix|..];
    var core := DropSlash(rest);
    var owner, repo := OwnerRepoParts(core);
    var slash := core != rest;
    u := Https(owner, repo, slash);
    DropSlashParts(rest);
    Reassemble(b, HttpsPrefix, core, if slash then "/" else "");
  }

  /** A text is what `DropSlash` keeps, then the `/` it removed, if any. */
  lemma DropSlashParts(s: string)
    ensures s == DropSlash(s) + (if DropSlash(s) != s then "/" else "")
  {
  }

  /** A text that starts with `p` is `p` followed by the rest. */
  lemma Reassemble(b: string, p: string, core: string, tail: string)
    requires StartsWith(b, p) && b[|p|..] == core + tail
    ensures b == p + (core + tail)
  {
    PrefixJoin(p, b);
  }

  lemma ValidParsesSsh(b: string) returns (u: RepoUrl)
    requires SshForm(b)
    ensures u.Ssh? && WellFormed(u) && b == Render(u)
  {
    var core := b[|SshPrefix|..|b| - 4];
    var owner, repo := OwnerRepoParts(core);
    u := Ssh(owner, repo);
    assert b == b[..|SshPrefix|] + core + b[|b| - 4..];
  }

  /** Every accepted URL is a well-formed repository URL, possibly followed by one newline. */
  lemma ValidParses(url: string) returns (u: RepoUrl)
    requires ValidateGithubUrl(url)
    ensures WellFormed(u) && Chomp(url) == Render(u)
  {
    if HttpsForm(Chomp(url)) {
      u := ValidParsesHttps(Chomp(url));
    } else {
      u := ValidParsesSsh(Chomp(url));
    }
  }

  // -------------------------------------------------------------------------------------------
  // Extraction

  /** `re.search(r'github\.com/[\w\-\.]+/([\w\-\.]+)/?$', url)`: the captured repository
      segment, if the URL ends that way. */
  function HttpsCapture(url: string): (r: Option<string>)
    ensures r.Some? ==> IsName(r.value)
  {
    var core := DropSlash(Chomp(url));
    var i := LastIndexOf(core, '/');
    if i < 0 then None
    else
      var head := core[..i];
      var j := LastIndexOf(head, '/');
      if IsName(core[i + 1..]) && IsName(head[j + 1..]) && EndsWith(head[..j + 1], Host + "/") then
        Some(core[i + 1..])
      else None
  }

  /** `re.search(r'github\.com:[\w\-\.]+/([\w\-\.]+)\.git$', url)`: the captured repository
      name before the final `.git`. */
  function SshCapture(url: string): (r: Option<string>)
    ensures r.Some? ==> IsName(r.value)
  {
    var b := Chomp(url);
    if !EndsWith(b, ".git") then None
    else
      var s := b[..|b| - 4];
      var i := LastIndexOf(s, '/');
      if i < 0 then None
      else
        var head := s[..i];
        var c := LastIndexOf(head, ':');
        if c >= 0 && IsName(s[i + 1..]) && IsName(head[c + 1..]) && EndsWith(head[..c + 1], Host + ":") then
          Some(s[i + 1..])
        else None
  }

  const UnknownProject := "unknown-project"

  /** `extract_repo_name` as written: the HTTPS capture with every `.git` removed, else the
      SSH capture, else `unknown-project`. */
  function ExtractRepoNameAsWritten(url: string): (name: string)
  {
    match HttpsCapture(url)
    case Some(g) => ReplaceAll(g, ".git", "")
    case None =>
      match SshCapture(url)
      case Some(g) => g
      case None => UnknownProject
  }

  /** The repository name without one trailing `.git`. */
  function StripGit(name: string): (r: string)
    ensures EndsWith(name, ".git") ==> name == r + ".git"
    ensures !EndsWith(name, ".git") ==> r == name
  {
    if EndsWith(name, ".git") then name[..|name| - 4] else name
  }

  /** `extract_repo_name` as evidently intended: only a trailing `.git` of the HTTPS capture
      is dropped. */
  function ExtractRepoName(url: string): (name: string)
  {
    match HttpsCapture(url)
    case Some(g) => StripGit(g)
    case None =>
      match SshCapture(url)
      case Some(g) => g
      case None => UnknownProject
  }

  lemma NoSlashInName(s: string)
    requires IsName(s)
    ensures '/' !in s && ':' !in s && '@' !in s
  {
    assert forall k :: 0 <= k < |s| ==> s[k] != '/' && s[k] != ':' && s[k] != '@';
  }

  /** The HTTPS pattern captures the repository segment of an HTTPS URL. */
  lemma EndsWithAppend(a: string, b: string)
    ensures EndsWith(a + b, b)
  {
    assert (a + b)[|a + b| - |b|..] == b;
  }

  lemma HttpsCaptures(owner: string, repo: string, slash: bool, url: string)
    requires WellFormed(Https(owner, repo, slash)) && Chomp(url) == Render(Https(owner, repo, slash))
    ensures HttpsCapture(url) == Some(repo)
  {
    NoSlashInName(repo);
    var pre := HttpsPrefix + owner;
    var core := pre + ['/'] + repo;
    HttpsCore(owner, repo, slash);
    LastIndexAfter(pre, repo, '/');
    HttpsHead(owner);
  }

  /** Without its optional final `/`, an HTTPS URL is its prefix, owner, `/` and repository. */
  lemma HttpsCore(owner: string, repo: string, slash: bool)
    requires WellFormed(Https(owner, repo, slash))
    ensures DropSlash(Render(Https(owner, repo, slash))) == HttpsPrefix + owner + ['/'] + repo
  {
    NoSlashInName(repo);
    DropTail(HttpsPrefix, owner, repo, slash);
  }

  /** `DropSlash` removes exactly the optional `/` after a text that does not end in `/`. */
  lemma DropTail(p: string, owner: string, repo: string, slash: bool)
    requires |repo| > 0 && '/' !in repo
    ensures DropSlash(p + (owner + "/" + repo + (if slash then "/" else ""))) == p + owner + ['/'] + repo
  {
    var core := p + owner + ['/'] + repo;
    assert core[|core| - 1] == repo[|repo| - 1];
    if slash {
      assert p + (owner + "/" + repo + "/") == core + "/";
      assert (core + "/")[..|core|] == core;
    } else {
      assert p + (owner + "/" + repo) == core;
    }
  }

  /** In the text before the repository, the last `/` is the one after `github.com`. */
  lemma HttpsHead(owner: string)
    requires IsName(owner)
    ensures var head := HttpsPrefix + owner;
            var j := LastIndexOf(head, '/');
            IsName(head[j + 1..]) && EndsWith(head[..j + 1], Host + "/")
  {
    NoSlashInName(owner);
    var scheme := "https://" + Host;
    assert HttpsPrefix + owner == scheme + ['/'] + owner;
    LastIndexAfter(scheme, owner, '/');
    EndsWithAppend("https://", Host + "/");
  }

  /** The SSH pattern captures the repository name of an SSH URL. */
  lemma SshCaptures(owner: string, repo: string, url: string)
    requires WellFormed(Ssh(owner, repo)) && Chomp(url) == Render(Ssh(owner, repo))
    ensures SshCapture(url) == Some(repo)
  {
    NoSlashInName(owner);
    NoSlashInName(repo);
    var b := Render(Ssh(owner, repo));
    var pre := SshPrefix + owner;
    var s := pre + ['/'] + repo;
    assert b == s + ".git";
    EndsWithAppend(s, ".git");
    assert b[..|b| - 4] == s;
    LastIndexAfter(pre, repo, '/');
    var user := "git@" + Host;
    assert pre == user + [':'] + owner;
    LastIndexAfter(user, owner, ':');
    EndsWithAppend("git@", Host + ":");
  }

  /** The HTTPS pattern captures nothing in an SSH URL: the text before its last `/` holds no
      `/`, so no owner there is preceded by `github.com/`. */
  lemma SshMissesHttps(owner: string, repo: string, url: string)
    requires WellFormed(Ssh(owner, repo)) && Chomp(url) == Render(Ssh(owner, repo))
    ensures HttpsCapture(url) == None
  {
    NoSlashInName(owner);
    NoSlashInName(repo);
    var b := Render(Ssh(owner, repo));
    var pre := SshPrefix + owner;
    assert DropSlash(b) == b;
    assert b == pre + ['/'] + (repo + ".git");
    assert '/' !in repo + ".git";
    LastIndexAfter(pre, repo + ".git", '/');
    assert '/' !in pre;
    assert pre[3] == '@' && !IsNameChar(pre[3]);
  }

  /** No accepted URL falls through to `unknown-project`: one of the two capture patterns
      always applies, and the name is the repository segment (minus one trailing `.git`). */
  lemma ValidNamesRepository(url: string)
    requires ValidateGithubUrl(url)
    ensures HttpsCapture(url).Some? || SshCapture(url).Some?
    ensures exists u :: WellFormed(u) && Chomp(url) == Render(u) &&
                        ExtractRepoName(url) == (if u.Https? then StripGit(u.repo) else u.repo)
  {
    var u := ValidParses(url);
    if u.Https? {
      HttpsCaptures(u.owner, u.repo, u.slash, url);
    } else {
      SshCaptures(u.owner, u.repo, url);
      SshMissesHttps(u.owner, u.repo, url);
    }
  }

  lemma NameAppend(a: string, b: string)
    requires IsName(a) && IsName(b)
    ensures IsName(a + b)
  {
    forall i | 0 <= i < |a + b| ensures IsNameChar((a + b)[i]) {
      if i >= |a| {
        assert (a + b)[i] == b[i - |a|];
      }
    }
  }

  lemma GitIsName()
    ensures IsName(".git")
  {
  }

  /** The name of an HTTPS URL: its repository segment with one trailing `.git` dropped, or, as
      written, with every `.git` cut out. */
  lemma HttpsName(owner: string, repo: string, slash: bool)
    requires WellFormed(Https(owner, repo, slash))
    ensures ExtractRepoName(Render(Https(owner, repo, slash))) == StripGit(repo)
    ensures ExtractRepoNameAsWritten(Render(Https(owner, repo, slash))) == ReplaceAll(repo, ".git", "")
  {
    ChompRender(Https(owner, repo, slash));
    HttpsCaptures(owner, repo, slash, Render(Https(owner, repo, slash)));
  }

  /** With the intended extraction, the name of an HTTPS URL does not depend on whether the
      URL carries `.git`. */
  lemma HttpsNameWithOrWithoutGit(owner: string, repo: string, slash: bool)
    requires WellFormed(Https(owner, repo, slash)) && !EndsWith(repo, ".git")
    ensures ExtractRepoName(Render(Https(owner, repo, slash))) == repo
    ensures ExtractRepoName(Render(Https(owner, repo + ".git", slash))) == repo
  {
    HttpsName(owner, repo, slash);
    GitIsName();
    NameAppend(repo, ".git");
    HttpsName(owner, repo + ".git", slash);
    assert (repo + ".git")[..|repo|] == repo;
  }

  /** The name of an SSH URL is its repository name, with either extraction. */
  lemma SshName(owner: string, repo: string)
    requires WellFormed(Ssh(owner, repo))
    ensures ExtractRepoName(Render(Ssh(owner, repo))) == repo
    ensures ExtractRepoNameAsWritten(Render(Ssh(owner, repo))) == repo
  {
    ChompRender(Ssh(owner, repo));
    SshCaptures(owner, repo, Render(Ssh(owner, repo)));
    SshMissesHttps(owner, repo, Render(Ssh(owner, repo)));
  }

  /** A replacement at the very start of the text, with a rest too short for another match. */
  lemma ReplaceLeading(pat: string, rest: string, rep: string)
    requires |pat| > 0 && |rest| < |pat|
    ensures ReplaceAll(pat + rest, pat, rep) == rep + rest
  {
    assert (pat + rest)[..|pat|] == pat;
    assert (pat + rest)[|pat|..] == rest;
  }

  /** As written, a `.git` inside the repository segment is cut out too: the `.github`
      repository of any owner is named `hub`. */
  lemma AsWrittenCutsInnerGit(owner: string)
    requires IsName(owner)
    ensures ExtractRepoNameAsWritten(Render(Https(owner, ".github", false))) == "hub"
    ensures ExtractRepoName(Render(Https(owner, ".github", false))) == ".github"
  {
    assert ".github" == ".git" + "hub";
    assert IsName(".github");
    HttpsName(owner, ".github", false);
    assert !EndsWith(".github", ".git");
    ReplaceLeading(".git", "hub", "");
  }
}
