/**
 * The string rewriting of the documentation server: how a request path
 * becomes a markdown candidate, how a page title is found, and how the
 * breadcrumb above a page is built.
 */
module DocsServer {
  import opened Optional
  import opened PyStr

  // ---------------------------------------------------------------------
  // Request path rewriting in the GET handler
  // ---------------------------------------------------------------------

  /**
   * Cutting at the first '?' and then at the first '#' leaves exactly the
   * prefix of the path before the first '?' or '#', whichever comes first.
   */
  lemma QueryAndFragmentCut(raw: string)
    ensures var cut := Before(Before(raw, '?'), '#');
      cut <= raw && '?' !in cut && '#' !in cut &&
      (|cut| < |raw| ==> raw[|cut|] == '?' || raw[|cut|] == '#')
  {
    var query := Before(raw, '?');
    var cut := Before(query, '#');
    assert raw[..|query|] == query && query[..|cut|] == cut;
    if |cut| < |query| {
      assert raw[|cut|] == query[|cut|];
    }
  }

  /** The path the GET handler goes on with: query and fragment cut off, the root mapped to the index page. */
  function RequestPath(raw: string): string
  {
    var cut := Before(Before(raw, '?'), '#');
    if cut == "/" then "/index.html" else cut
  }

  /** The markdown file a `.html` path stands for; None for any other path. */
  function MarkdownCandidate(path: string): Option<string>
  {
    if EndsWith(path, ".html") then Some(path[..|path| - 5] + ".md") else None
  }

  /** The rewritten path has neither a query nor a fragment, and is the cut path unless that was the root. */
  lemma RequestPathIsClean(raw: string)
    ensures var path := RequestPath(raw);
      '?' !in path && '#' !in path && path != "/" &&
      (path != "/index.html" ==> path <= raw)
  {
    var query := Before(raw, '?');
    var cut := Before(query, '#');
    assert raw[..|query|] == query && query[..|cut|] == cut;
    if cut == "/" {
      IndexPageIsClean();
    }
  }

  lemma IndexPageIsClean()
    ensures '?' !in "/index.html" && '#' !in "/index.html" && "/index.html" != "/"
  {
    assert "/index.html"[1] == 'i';
  }

  /** A markdown candidate exists exactly for `.html` paths, ends in `.md`, and maps back to the path. */
  lemma MarkdownCandidateRoundTrip(path: string)
    ensures MarkdownCandidate(path).Some? <==> EndsWith(path, ".html")
    ensures MarkdownCandidate(path).Some? ==>
      var md := MarkdownCandidate(path).value;
      EndsWith(md, ".md") && md[..|md| - 3] + ".html" == path
  {
    if EndsWith(path, ".html") {
      var stem := path[..|path| - 5];
      var md := stem + ".md";
      assert md[..|md| - 3] == stem;
      assert md[|md| - 3..] == ".md";
      assert path == stem + path[|path| - 5..];
    }
  }

  /**
   * The rewriting at the top of the GET handler: drop the query, then the
   * fragment, map the root to the index page, and derive the markdown file
   * a `.html` request stands for.
   */
  method RewriteRequestPath(requested: string) returns (path: string, markdown: Option<string>)
    ensures path == RequestPath(requested)
    ensures markdown == MarkdownCandidate(path)
  {
    path := requested;
    if '?' in path {
      path := Before(path, '?');
    }
    if '#' in path {
      path := Before(path, '#');
    }
    if path == "/" {
      path := "/index.html";
    }
    if EndsWith(path, ".html") {
      markdown := Some(path[..|path| - 5] + ".md");
    } else {
      markdown := None;
    }
  }

  // ---------------------------------------------------------------------
  // Markdown rendering: file path and title
  // ---------------------------------------------------------------------

  /** Removes one leading '/', if there is one. */
  function StripLeadingSlash(path: string): (r: string)
    ensures StartsWith(path, "/") ==> "/" + r == path
    ensures !StartsWith(path, "/") ==> r == path
  {
    if StartsWith(path, "/") then path[1..] else path
  }

  const DefaultTitle: string := "Documentation"

  /**
   * The page title: "Documentation" unless the content starts with '#';
   * then the first line without its leading '#'s and surrounding
   * whitespace, which is a single trimmed line made of characters of the
   * content.
   */
  function DocTitle(content: string): string
  {
    if StartsWith(content, "#") then
      Strip(LStrip(Before(content, '\n'), Only('#')), Whitespace)
    else DefaultTitle
  }

  /** Below a '#', the title is a piece of the first line of the content. */
  lemma DocTitleWithinFirstLine(content: string)
    requires StartsWith(content, "#")
    ensures IsInfix(DocTitle(content), Before(content, '\n'))
    ensures '\n' !in DocTitle(content)
  {
    var line := Before(content, '\n');
    var unhashed := LStrip(line, Only('#'));
    assert unhashed <= line[|line| - |unhashed|..];
    StripIsInfix(unhashed, Whitespace);
    InfixTransitive(DocTitle(content), unhashed, line);
    InfixExcludes(DocTitle(content), line, '\n');
  }

  /** Below a '#', the title neither starts nor ends with whitespace. */
  lemma DocTitleIsTrimmed(content: string)
    requires StartsWith(content, "#")
    ensures var title := DocTitle(content);
      title != [] ==> !IsSpace(title[0]) && !IsSpace(title[|title| - 1])
  {
    var title := Strip(LStrip(Before(content, '\n'), Only('#')), Whitespace);
    assert title == DocTitle(content);
    if title != [] {
      var last := title[|title| - 1];
      assert !Whitespace.Has(last);
    }
  }

  function Hashes(n: nat): (r: string)
    ensures |r| == n && forall i :: 0 <= i < n ==> r[i] == '#'
  {
    seq(n, _ => '#')
  }

  /** The part before the first c of `a + [c] + b`, when a has no c, is a. */
  lemma {:induction false} BeforeFirstSeparator(a: string, b: string, c: char)
    requires c !in a
    ensures Before(a + [c] + b, c) == a
  {
    if a != [] {
      assert (a + [c] + b)[1..] == a[1..] + [c] + b;
      BeforeFirstSeparator(a[1..], b, c);
      assert a == [a[0]] + a[1..];
    }
  }

  /** Stripping a prefix made only of stripped characters leaves the rest, when the rest starts with a kept one. */
  lemma {:induction false} LStripPrefix(a: string, b: string, cls: CharClass)
    requires forall i :: 0 <= i < |a| ==> cls.Has(a[i])
    requires b == [] || !cls.Has(b[0])
    ensures LStrip(a + b, cls) == b
  {
    if a != [] {
      assert (a + b)[1..] == a[1..] + b;
      LStripPrefix(a[1..], b, cls);
    }
  }

  /** A heading line `#... text` yields the heading text as the title. */
  lemma HeadingTitle(n: nat, text: string, rest: string)
    requires n >= 1
    requires '\n' !in text && text != []
    requires !IsSpace(text[0]) && !IsSpace(text[|text| - 1])
    ensures DocTitle(Hashes(n) + " " + text + "\n" + rest) == text
  {
    var line := Hashes(n) + " " + text;
    var content := line + "\n" + rest;
    HeadingLineIsOneLine(n, text);
    BeforeFirstSeparator(line, rest, '\n');
    assert Before(content, '\n') == line;
    HeadingLineText(n, text);
    assert StartsWith(content, "#") by {
      assert content[0] == Hashes(n)[0];
    }
  }

  /** A heading line `#... text` has no line break when the text has none. */
  lemma HeadingLineIsOneLine(n: nat, text: string)
    requires '\n' !in text
    ensures '\n' !in Hashes(n) + " " + text
  {
    var line := Hashes(n) + " " + text;
    forall i | 0 <= i < |line|
      ensures line[i] != '\n'
    {
      if i < n {
        assert line[i] == '#';
      } else if i > n {
        assert line[i] == text[i - n - 1];
      }
    }
  }

  /** Dropping the '#'s and then the surrounding whitespace of `#... text` leaves the text. */
  lemma HeadingLineText(n: nat, text: string)
    requires text != []
    requires !IsSpace(text[0]) && !IsSpace(text[|text| - 1])
    ensures Strip(LStrip(Hashes(n) + " " + text, Only('#')), Whitespace) == text
  {
    var spaced := [' '] + text;
    assert Hashes(n) + " " + text == Hashes(n) + spaced;
    LStripPrefix(Hashes(n), spaced, Only('#'));
    LStripPrefix([' '], text, Whitespace);
    StripBothEnds(spaced, text, Whitespace);
  }

  /** When lstrip leaves t and t has nothing to rstrip, strip leaves t. */
  lemma StripBothEnds(s: string, t: string, cls: CharClass)
    requires LStrip(s, cls) == t
    requires t != [] && !cls.Has(t[|t| - 1])
    ensures Strip(s, cls) == t
  {
  }

  // ---------------------------------------------------------------------
  // Breadcrumb navigation
  // ---------------------------------------------------------------------

  const HomeLink: string := "<a href=\"/\">Home</a>"

  function Link(href: string, text: string): string
  {
    "<a href=\"" + href + "/\">" + text + "</a>"
  }

  /** The shown name of a directory: underscores become spaces, then title case. */
  function Label(part: string): string
  {
    Title(ReplaceChar(part, '_', ' '))
  }

  /** The path split into segments after stripping '/' from both ends. */
  function Segments(path: string): (segs: seq<string>)
    ensures |segs| >= 1
    ensures forall i :: 0 <= i < |segs| ==> '/' !in segs[i]
    ensures Join(segs, "/") == Strip(path, Only('/'))
  {
    SplitJoin(Strip(path, Only('/')), '/');
    Split(Strip(path, Only('/')), '/')
  }

  /** "/d1/.../dk": the first k directories, each preceded by '/'. */
  function CumulativePath(dirs: seq<string>, k: nat): string
    requires k <= |dirs|
  {
    if k == 0 then "" else CumulativePath(dirs, k - 1) + "/" + dirs[k - 1]
  }

  /** One link per directory, pointing at the cumulative path up to it. */
  function DirLinks(dirs: seq<string>): seq<string>
  {
    seq(|dirs|, k requires 0 <= k < |dirs| => Link(CumulativePath(dirs, k + 1), Label(dirs[k])))
  }

  /** What the breadcrumb of a page path is: Home and one link per directory, or nothing at top level. */
  function Breadcrumb(path: string): string
  {
    var segs := Segments(path);
    var crumbs := [HomeLink] + DirLinks(segs[..|segs| - 1]);
    if |crumbs| > 1 then "<div class=\"breadcrumb\">" + Join(crumbs, " > ") + "</div>" else ""
  }

  lemma DirLinksExtend(dirs: seq<string>, k: nat)
    requires k < |dirs|
    ensures DirLinks(dirs)[..k + 1] == DirLinks(dirs)[..k] + [Link(CumulativePath(dirs, k) + "/" + dirs[k], Label(dirs[k]))]
  {
    var links := DirLinks(dirs);
    assert links[..k + 1] == links[..k] + [links[k]];
  }

  /** The crumbs built link by link, extending the cumulative path one directory at a time. */
  method DirectoryCrumbs(dirs: seq<string>) returns (crumbs: seq<string>)
    ensures crumbs == [HomeLink] + DirLinks(dirs)
  {
    ghost var links := DirLinks(dirs);
    crumbs := [HomeLink];
    var current := "";
    for k := 0 to |dirs|
      invariant current == CumulativePath(dirs, k)
      invariant crumbs == [HomeLink] + links[..k]
    {
      current := current + "/" + dirs[k];
      var name := Label(dirs[k]);
      DirLinksExtend(dirs, k);
      crumbs := crumbs + [Link(current, name)];
    }
    assert links[..|dirs|] == links;
  }

  /** The breadcrumb of a page path: Home and one link per directory, wrapped, or nothing at top level. */
  method GenerateBreadcrumb(path: string) returns (html: string)
    ensures html == Breadcrumb(path)
  {
    var parts := Segments(path);
    var crumbs := DirectoryCrumbs(parts[..|parts| - 1]);
    if |crumbs| > 1 {
      html := "<div class=\"breadcrumb\">" + Join(crumbs, " > ") + "</div>";
    } else {
      html := "";
    }
  }

  /** The breadcrumb is empty exactly when the stripped path has at most one segment. */
  lemma BreadcrumbEmptyIff(path: string)
    ensures Breadcrumb(path) == "" <==> |Segments(path)| <= 1
  {
    var segs := Segments(path);
    if |segs| > 1 {
      assert |"<div class=\"breadcrumb\">"| > 0;
    }
  }

  lemma {:induction false} JoinSnoc(xs: seq<string>, x: string, sep: string)
    requires |xs| >= 1
    ensures Join(xs + [x], sep) == Join(xs, sep) + sep + x
    decreases |xs|
  {
    if |xs| == 1 {
      assert xs + [x] == [xs[0], x];
      assert [xs[0], x][1..] == [x];
    } else {
      assert (xs + [x])[1..] == xs[1..] + [x];
      JoinSnoc(xs[1..], x, sep);
    }
  }

  /** The cumulative path of the first k directories is "/" followed by them joined with "/". */
  lemma {:induction false} CumulativePathIsJoin(dirs: seq<string>, k: nat)
    requires 1 <= k <= |dirs|
    ensures CumulativePath(dirs, k) == "/" + Join(dirs[..k], "/")
  {
    if k == 1 {
      assert dirs[..1] == [dirs[0]];
    } else {
      CumulativePathIsJoin(dirs, k - 1);
      assert dirs[..k] == dirs[..k - 1] + [dirs[k - 1]];
      JoinSnoc(dirs[..k - 1], dirs[k - 1], "/");
    }
  }

  /** The k-th directory link points at "/s1/.../sk", the first k segments joined by "/". */
  lemma DirLinkIsJoin(segs: seq<string>, k: nat)
    requires k < |segs| - 1
    ensures DirLinks(segs[..|segs| - 1])[k] == Link("/" + Join(segs[..k + 1], "/"), Label(segs[k]))
  {
    var dirs := segs[..|segs| - 1];
    CumulativePathIsJoin(dirs, k + 1);
    assert dirs[..k + 1] == segs[..k + 1];
  }

  /**
   * Below the top level, the breadcrumb is Home followed by one link per
   * directory segment (the file name is never linked), the k-th pointing at
   * "/s1/.../sk/", all joined by " > ".
   */
  lemma BreadcrumbLinks(path: string)
    requires |Segments(path)| >= 2
    ensures var segs := Segments(path);
      var links := DirLinks(segs[..|segs| - 1]);
      Breadcrumb(path) == "<div class=\"breadcrumb\">" + Join([HomeLink] + links, " > ") + "</div>" &&
      |links| == |segs| - 1 &&
      forall k :: 0 <= k < |segs| - 1 ==>
        links[k] == Link("/" + Join(segs[..k + 1], "/"), Label(segs[k]))
  {
    var segs := Segments(path);
    forall k | 0 <= k < |segs| - 1
      ensures DirLinks(segs[..|segs| - 1])[k] == Link("/" + Join(segs[..k + 1], "/"), Label(segs[k]))
    {
      DirLinkIsJoin(segs, k);
    }
  }
}
