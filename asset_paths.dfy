/** The HTML asset-path normaliser of the build step: six left-to-right rewrites that turn
    root-relative references into document-relative ones and drop `<base>` tags, so that a site
    can be served from a bucket sub-folder.  Each rewrite is one regular-expression substitution
    in the original; here each is a scanner that reproduces that substitution's leftmost,
    non-overlapping, greedy matching. */
module AssetPaths {
  import opened Wrappers
  import opened Text

  /** `s` begins with `attr="/` and a closing quote follows: the text `(attr)="(/[^"]*)"` matches
      at the start of `s`. */
  predicate QuotedAbsolute(s: string, attr: string)
  {
    StartsWith(s, attr + "=\"/") && '"' in s[|attr| + 3..]
  }

  /** Index of the quote closing the value that starts at `s[|attr| + 2]`. */
  function ClosingQuote(s: string, attr: string): (k: nat)
    requires QuotedAbsolute(s, attr)
    ensures |attr| + 3 <= k < |s| && s[k] == '"' && '"' !in s[|attr| + 2..k]
  {
    var t := s[|attr| + 3..];
    var i := IndexOf(t, '"');
    assert forall m :: 0 <= m < i ==> t[..i][m] == t[m];
    assert s[|attr| + 2] == '/';
    var k := |attr| + 3 + i;
    assert forall m :: |attr| + 2 <= m < k ==> s[|attr| + 2..k][m - |attr| - 2] == s[m] != '"';
    k
  }

  /** A whitespace character at `j` followed by `attr="/..."` with a closing quote. */
  predicate SpacedAttrAt(s: string, j: nat, attr: string)
  {
    j < |s| && IsPySpace(s[j]) && QuotedAbsolute(s[j + 1..], attr)
  }

  /** The greatest `j` in `[lo, hi)` at which `SpacedAttrAt` holds: the greedy `([^>]*)` gives
      back characters from the right until `\sattr="/..."` matches. */
  function LastSpacedAttr(s: string, lo: nat, hi: nat, attr: string): (r: Option<nat>)
    ensures r.Some? ==> lo <= r.value < hi && SpacedAttrAt(s, r.value, attr) &&
                        forall j :: r.value < j < hi ==> !SpacedAttrAt(s, j, attr)
    ensures r.None? ==> forall j :: lo <= j < hi ==> !SpacedAttrAt(s, j, attr)
    decreases hi
  {
    if hi <= lo then None
    else if SpacedAttrAt(s, hi - 1, attr) then Some(hi - 1)
    else LastSpacedAttr(s, lo, hi - 1, attr)
  }

  /** `re.sub(r'<tag([^>]*)\sattr="(/[^"]*)"', r'<tag\1 attr=".\2"', s)` */
  function TagPass(s: string, tag: string, attr: string): string
    decreases |s|
  {
    if s == [] then []
    else if StartsWith(s, tag) then
      var g := |tag|;
      match LastSpacedAttr(s, g, g + IndexOf(s[g..], '>'), attr)
      case Some(j) =>
        var k := j + 1 + ClosingQuote(s[j + 1..], attr);
        tag + s[g..j] + " " + attr + "=\"." + s[j + |attr| + 3..k] + "\"" + TagPass(s[k + 1..], tag, attr)
      case None => [s[0]] + TagPass(s[1..], tag, attr)
    else [s[0]] + TagPass(s[1..], tag, attr)
  }

  /** The attribute names of the fourth rewrite, in the order of the alternation. */
  const Attributes := ["src", "href", "action"]

  /** `re.sub(r'(src|href|action)="(/[^"]*)"', r'\1=".\2"', s)` */
  function AttrPass(s: string): string
    decreases |s|
  {
    if s == [] then []
    else if QuotedAbsolute(s, "src") then Requote(s, "src")
    else if QuotedAbsolute(s, "href") then Requote(s, "href")
    else if QuotedAbsolute(s, "action") then Requote(s, "action")
    else [s[0]] + AttrPass(s[1..])
  }

  function Requote(s: string, attr: string): string
    requires QuotedAbsolute(s, attr)
    decreases |s|, 0
  {
    var k := ClosingQuote(s, attr);
    attr + "=\"." + s[|attr| + 2..k] + "\"" + AttrPass(s[k + 1..])
  }

  // re.sub(r'<base[^>]*/?>', '', s): from `<base` through the next `>`.
  function BasePass(s: string): string
    decreases |s|
  {
    if s == [] then []
    else if StartsWith(s, "<base") && '>' in s[5..] then BasePass(s[5 + IndexOf(s[5..], '>') + 1..])
    else [s[0]] + BasePass(s[1..])
  }

  /** `re.sub(r'url\(/([^)]*)\)', r'url(./\1)', s)` */
  function UrlPass(s: string): string
    decreases |s|
  {
    if s == [] then []
    else if StartsWith(s, "url(/") && ')' in s[5..] then
      var k := 5 + IndexOf(s[5..], ')');
      "url(./" + s[5..k] + ")" + UrlPass(s[k + 1..])
    else [s[0]] + UrlPass(s[1..])
  }

  /** The six rewrites of one HTML file, in order. */
  function Normalize(s: string): string
  {
    var scripts := TagPass(s, "<script", "src");
    var links := TagPass(scripts, "<link", "href");
    var images := TagPass(links, "<img", "src");
    UrlPass(BasePass(AttrPass(images)))
  }

  // -------------------------------------------------------------------------------------------
  // Text that offers no match is left alone

  /** Every tag rewrite needs the text `="/` somewhere. */
  lemma {:induction false} TagPassIdentity(s: string, tag: string, attr: string)
    requires !Contains(s, "=\"/")
    ensures TagPass(s, tag, attr) == s
    decreases |s|
  {
    if s != [] {
      if StartsWith(s, tag) {
        var g := |tag|;
        var r := LastSpacedAttr(s, g, g + IndexOf(s[g..], '>'), attr);
        if r.Some? {
          SpacedAttrContains(s, r.value, attr);
        }
      }
      TagPassIdentity(s[1..], tag, attr);
    }
  }

  /** A spaced attribute match holds the text `="/`. */
  lemma SpacedAttrContains(s: string, j: nat, attr: string)
    requires SpacedAttrAt(s, j, attr)
    ensures Contains(s, "=\"/")
  {
    var t := s[j + 1..];
    assert t[|attr|..|attr| + 3] == "=\"/";
    assert s[j + 1 + |attr|..j + 1 + |attr| + 3] == t[|attr|..|attr| + 3];
    ContainsAt(s, "=\"/", j + 1 + |attr|);
  }

  /** A tag rewrite leaves text without its tag alone. */
  lemma {:induction false} TagPassNoTag(s: string, tag: string, attr: string)
    requires !Contains(s, tag)
    ensures TagPass(s, tag, attr) == s
    decreases |s|
  {
    if s != [] {
      TagPassNoTag(s[1..], tag, attr);
    }
  }

  /** No attribute of the fourth rewrite starts at the beginning of `s`. */
  predicate NoAttrHere(s: string)
  {
    !QuotedAbsolute(s, "src") && !QuotedAbsolute(s, "href") && !QuotedAbsolute(s, "action")
  }

  lemma QuotedContains(s: string, attr: string)
    requires QuotedAbsolute(s, attr)
    ensures Contains(s, "=\"/")
  {
    assert s[|attr|..|attr| + 3] == "=\"/";
    ContainsAt(s, "=\"/", |attr|);
  }

  lemma {:induction false} AttrPassIdentity(s: string)
    requires !Contains(s, "=\"/")
    ensures AttrPass(s) == s
    decreases |s|
  {
    if s != [] {
      if !NoAttrHere(s) {
        if QuotedAbsolute(s, "src") { QuotedContains(s, "src"); }
        else if QuotedAbsolute(s, "href") { QuotedContains(s, "href"); }
        else { QuotedContains(s, "action"); }
      }
      AttrPassIdentity(s[1..]);
    }
  }

  lemma {:induction false} BasePassIdentity(s: string)
    requires !Contains(s, "<base")
    ensures BasePass(s) == s
    decreases |s|
  {
    if s != [] {
      BasePassIdentity(s[1..]);
    }
  }

  lemma {:induction false} UrlPassIdentity(s: string)
    requires !Contains(s, "url(/")
    ensures UrlPass(s) == s
    decreases |s|
  {
    if s != [] {
      UrlPassIdentity(s[1..]);
    }
  }

  /** Text that contains none of `="/`, `<base` and `url(/` is a fixed point of the normaliser,
      so a file without root-relative references is never rewritten. */
  lemma NormalizeFixedPoint(s: string)
    requires !Contains(s, "=\"/") && !Contains(s, "<base") && !Contains(s, "url(/")
    ensures Normalize(s) == s
  {
    TagPassIdentity(s, "<script", "src");
    TagPassIdentity(s, "<link", "href");
    TagPassIdentity(s, "<img", "src");
    AttrPassIdentity(s);
    BasePassIdentity(s);
    UrlPassIdentity(s);
  }

  /** The fourth rewrite copies a prefix in which no match starts. */
  lemma AttrPassSkip(a: string, b: string)
    requires forall i :: 0 <= i < |a| ==> NoAttrHere((a + b)[i..])
    ensures AttrPass(a + b) == a + AttrPass(b)
  {
    forall i | 0 <= i < |a| ensures NoAttrAt(a + b, i) {
    }
    AttrPassSkipFrom(a + b, |a|);
    assert (a + b)[..|a|] == a && (a + b)[|a|..] == b;
  }

  /** No match of the fourth rewrite starts at index `i` of `s`. */
  predicate NoAttrAt(s: string, i: nat)
    requires i <= |s|
  {
    NoAttrHere(s[i..])
  }

  /** The fourth rewrite copies the first `n` characters when no match starts among them. */
  lemma {:induction false} AttrPassSkipFrom(s: string, n: nat)
    requires n <= |s| && forall i :: 0 <= i < n ==> NoAttrAt(s, i)
    ensures AttrPass(s) == s[..n] + AttrPass(s[n..])
    decreases n
  {
    if n == 0 {
      assert s[..0] + AttrPass(s[0..]) == AttrPass(s);
    } else {
      AttrPassSkipFrom(s, n - 1);
      AttrPassSkipOne(s, n);
    }
  }

  lemma AttrPassSkipOne(s: string, n: nat)
    requires 0 < n <= |s| && NoAttrAt(s, n - 1)
    ensures s[..n - 1] + AttrPass(s[n - 1..]) == s[..n] + AttrPass(s[n..])
  {
    AttrPassStep(s[n - 1..]);
    assert s[n - 1..][1..] == s[n..];
    assert s[..n - 1] + ([s[n - 1]] + AttrPass(s[n..])) == s[..n] + AttrPass(s[n..]);
  }

  /** Where no match starts, the fourth rewrite copies one character. */
  lemma AttrPassStep(s: string)
    requires s != [] && NoAttrHere(s)
    ensures AttrPass(s) == [s[0]] + AttrPass(s[1..])
  {
  }

  // -------------------------------------------------------------------------------------------
  // Texts the tag and tail rewrites leave alone

  /** Text without `<` passes the three tag rewrites unchanged. */
  lemma WithoutTags(s: string)
    requires '<' !in s
    ensures Normalize(s) == UrlPass(BasePass(AttrPass(s)))
  {
    NotContainsFirst(s, "<script");
    NotContainsFirst(s, "<link");
    NotContainsFirst(s, "<img");
    TagPassNoTag(s, "<script", "src");
    TagPassNoTag(s, "<link", "href");
    TagPassNoTag(s, "<img", "src");
  }

  /** Text without `<` and `u` passes the last two rewrites unchanged. */
  lemma WithoutBaseOrUrl(s: string)
    requires '<' !in s && 'u' !in s
    ensures UrlPass(BasePass(s)) == s
  {
    NotContainsFirst(s, "<base");
    NotContainsFirst(s, "url(/");
    BasePassIdentity(s);
    UrlPassIdentity(s);
  }

  // -------------------------------------------------------------------------------------------
  // A second run is not always a no-op

  /** Text that holds none of the characters a pattern needs to start or stop on its own. */
  predicate Plain(a: string)
  {
    '"' !in a && '=' !in a && '<' !in a && 'u' !in a
  }

  /** A quoted root-relative value `v` of `attr`, followed by `rest`, is requoted as `./...`. */
  lemma RequoteValue(attr: string, v: string, rest: string)
    requires |v| > 0 && v[0] == '/' && '"' !in v
    ensures var x := attr + "=\"" + v + "\"" + rest;
            QuotedAbsolute(x, attr) && Requote(x, attr) == attr + "=\"." + v + "\"" + AttrPass(rest)
  {
    var x := attr + "=\"" + v + "\"" + rest;
    var n := |attr| + 2 + |v|;
    assert x[..|attr| + 3] == attr + "=\"/";
    assert x[n] == '"';
    var k := ClosingQuote(x, attr);
    assert forall j :: |attr| + 2 <= j < n ==> x[j] == v[j - |attr| - 2];
    assert k == n;
    assert x[|attr| + 2..n] == v;
    assert x[n + 1..] == rest;
  }

  /** A `url(/…)` whose value holds no `)` gains a `.` before its `/`, and the scan resumes
      after the closing parenthesis. */
  lemma UrlRewrite(v: string, rest: string)
    requires ')' !in v
    ensures UrlPass("url(/" + v + ")" + rest) == "url(./" + v + ")" + UrlPass(rest)
  {
    var x := "url(/" + v + ")" + rest;
    assert x[..5] == "url(/";
    var t := x[5..];
    assert t == v + ")" + rest;
    assert forall m :: 0 <= m < |v| ==> t[m] == v[m];
    IndexOfAt(t, ')', |v|);
    assert x[5..5 + |v|] == v;
    assert x[5 + |v| + 1..] == rest;
  }

  /** A `<base` tag is removed through its first `>`, and the scan resumes after it. */
  lemma BaseRemoved(v: string, rest: string)
    requires '>' !in v
    ensures BasePass("<base" + v + ">" + rest) == BasePass(rest)
  {
    var x := "<base" + v + ">" + rest;
    assert x[..5] == "<base";
    var t := x[5..];
    assert t == v + ">" + rest;
    assert forall m :: 0 <= m < |v| ==> t[m] == v[m];
    IndexOfAt(t, '>', |v|);
    assert x[5 + |v| + 1..] == rest;
  }

  /** The first occurrence of `c` is at `i` when `s[i] == c` and no earlier character is `c`. */
  lemma IndexOfAt(s: string, c: char, i: nat)
    requires i < |s| && s[i] == c && forall m :: 0 <= m < i ==> s[m] != c
    ensures IndexOf(s, c) == i
  {
    assert c in s[..i + 1] by {
      assert s[..i + 1][i] == c;
    }
  }

  /** `src="{p}{a} href="{q}{b}"`: an unquoted-looking second attribute inside a first value. */
  function Nested(p: string, a: string, q: string, b: string): string
  {
    "src=\"" + p + a + " href=\"" + q + b + "\""
  }

  /** The same texts grouped as one quoted value followed by the rest. */
  lemma NestedOnce(a: string, b: string)
    ensures Nested("/", a, "/", b) == "src" + "=\"" + ("/" + a + " href=") + "\"" + ("/" + b + "\"")
    ensures Nested("./", a, "/", b) == "src" + "=\"." + ("/" + a + " href=") + "\"" + ("/" + b + "\"")
  {
  }

  /** The first run rewrites `src` and resumes after the quote that closes its value, which is
      the quote opening `href`'s value, so `href` is skipped. */
  lemma FirstAttrRun(a: string, b: string)
    requires Plain(a) && Plain(b)
    ensures AttrPass(Nested("/", a, "/", b)) == Nested("./", a, "/", b)
  {
    var v := "/" + a + " href=";
    var rest := "/" + b + "\"";
    NestedOnce(a, b);
    RequoteValue("src", v, rest);
    NotContainsFirst(rest, "=\"/");
    AttrPassIdentity(rest);
  }

  /** What a match of the fourth rewrite needs at the start of `s`. */
  lemma QuotedShape(s: string, attr: string)
    ensures QuotedAbsolute(s, attr) ==>
              |s| >= |attr| + 3 && s[..|attr|] == attr && s[|attr|] == '=' && s[|attr| + 2] == '/'
  {
    if QuotedAbsolute(s, attr) {
      assert s[..|attr| + 3] == attr + "=\"/";
    }
  }

  /** The once- and twice-normalised texts grouped as a prefix followed by the `href` value. */
  lemma NestedTwice(a: string, b: string)
    ensures Nested("./", a, "/", b) == ("src=\"./" + a + " ") + ("href" + "=\"" + ("/" + b) + "\"" + "")
    ensures Nested("./", a, "./", b) == ("src=\"./" + a + " ") + ("href" + "=\"." + ("/" + b) + "\"" + "")
  {
  }

  /** The only `=` of the once-normalised text sit after `src` and after `href`. */
  lemma EqualsAt(a: string, b: string)
    requires Plain(a) && Plain(b)
    ensures var y := Nested("./", a, "/", b);
            |y| == 16 + |a| + |b| && y[5] == '.' && y[7 + |a|] == ' ' &&
            forall j :: 0 <= j < |y| && j != 3 && j != 12 + |a| ==> y[j] != '='
  {
    var y := Nested("./", a, "/", b);
    forall j | 0 <= j < |y| && j != 3 && j != 12 + |a| ensures y[j] != '=' {
      if 7 <= j < 7 + |a| { assert y[j] == a[j - 7]; }
      if 15 + |a| <= j < 15 + |a| + |b| { assert y[j] == b[j - 15 - |a|]; }
    }
  }

  /** No match of the fourth rewrite starts before the `href`. */
  lemma PrefixHasNoAttr(a: string, b: string, i: nat)
    requires Plain(a) && Plain(b) && i < 8 + |a|
    ensures NoAttrHere(Nested("./", a, "/", b)[i..])
  {
    var y := Nested("./", a, "/", b);
    EqualsAt(a, b);
    var s := y[i..];
    QuotedShape(s, "src");
    QuotedShape(s, "href");
    QuotedShape(s, "action");
    if i == 0 {
      assert s[5] == '.';
    } else {
      assert s[3] == y[i + 3] != '=';
    }
    assert s[4] == y[i + 4] != '=';
    if i == 6 + |a| {
      assert s[1] == ' ' != "action"[1];
      assert s[..6] != "action";
    } else {
      assert s[6] == y[i + 6] != '=';
    }
  }

  /** The `href` value on its own is rewritten. */
  lemma HrefRun(b: string)
    requires Plain(b)
    ensures AttrPass("href" + "=\"" + ("/" + b) + "\"" + "") == "href" + "=\"." + ("/" + b) + "\"" + ""
  {
    var h := "href" + "=\"" + ("/" + b) + "\"" + "";
    RequoteValue("href", "/" + b, "");
    assert h[0] == 'h';
  }

  /** The second run finds the `href` that the first one skipped. */
  lemma SecondAttrRun(a: string, b: string)
    requires Plain(a) && Plain(b)
    ensures AttrPass(Nested("./", a, "/", b)) == Nested("./", a, "./", b)
  {
    var pre := "src=\"./" + a + " ";
    var h := "href" + "=\"" + ("/" + b) + "\"" + "";
    NestedTwice(a, b);
    forall i | 0 <= i < |pre| ensures NoAttrHere((pre + h)[i..]) {
      PrefixHasNoAttr(a, b, i);
    }
    AttrPassSkip(pre, h);
    HrefRun(b);
  }

  /** Characters that would start a tag or a `url(` never occur. */
  lemma NestedPlain(p: string, a: string, q: string, b: string)
    requires Plain(a) && Plain(b) && Plain(p) && Plain(q)
    ensures '<' !in Nested(p, a, q, b) && 'u' !in Nested(p, a, q, b)
  {
  }

  /** Normalising twice differs from normalising once, on text with no `<base` tag (indeed
      with no tag at all): the fourth rewrite resumes after the quote that closes a value it
      rewrote, so an attribute whose `="` ended that value is only rewritten by the next run. */
  lemma NormalizeNotIdempotent(a: string, b: string)
    requires Plain(a) && Plain(b)
    ensures Normalize(Nested("/", a, "/", b)) == Nested("./", a, "/", b)
    ensures Normalize(Nested("./", a, "/", b)) == Nested("./", a, "./", b) != Nested("./", a, "/", b)
  {
    NestedPlain("/", a, "/", b);
    NestedPlain("./", a, "/", b);
    NestedPlain("./", a, "./", b);
    WithoutTags(Nested("/", a, "/", b));
    FirstAttrRun(a, b);
    WithoutBaseOrUrl(Nested("./", a, "/", b));
    WithoutTags(Nested("./", a, "/", b));
    SecondAttrRun(a, b);
    WithoutBaseOrUrl(Nested("./", a, "./", b));
    assert |Nested("./", a, "./", b)| != |Nested("./", a, "/", b)|;
  }
}
