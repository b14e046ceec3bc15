/**
 * The post-build pass of astro-build-done.js. For every generated page it
 * finds the page file, collects the <style data-ssr-emotion> elements under
 * <body>, writes their merged text to `<assetsDir>/ssremo.<id>.css`, removes
 * them, links the new stylesheet from <head> and rewrites the page.
 *
 * The file system is a map from path to content, the console a sequence of
 * lines, the DOM library a parser/serialiser pair, and the random bytes of
 * each page an input.
 */
module AstroBuildDone {
  import opened Wrappers
  import opened Text
  import opened Dom
  import opened AstroConfig

  const MarkerTag := "style"
  const MarkerAttribute := "data-ssr-emotion"
  const DefaultAssetsDir := "_astro"
  const Doctype := "<!DOCTYPE html>\n"
  const LogPrefix := "[SSR Emotion] "

  /** The 4 random bytes drawn for one page. */
  type Bytes4 = b: seq<byte> | |b| == 4 witness [0, 0, 0, 0]

  datatype Page = Page(pathname: string)

  /** What the pass throws: reading `build` of a null configuration. */
  datatype BuildError = NullConfig

  /** `config.build?.assets || '_astro'`: never empty. */
  function AssetsDir(c: Config): (r: string)
    ensures r != ""
    ensures r != DefaultAssetsDir ==> c.buildAssets == Some(r)
    ensures c.buildAssets.Some? && c.buildAssets.value != "" ==> r == c.buildAssets.value
  {
    if c.buildAssets.Some? && c.buildAssets.value != "" then c.buildAssets.value else DefaultAssetsDir
  }

  /** `config.base === '/' ? '' : config.base` */
  function Base(c: Config): (r: string)
    ensures r == "" <==> c.base == "/" || c.base == ""
    ensures r != "" ==> r == c.base
  {
    if c.base == "/" then "" else c.base
  }

  /** Joins two path segments with one separator, skipping an empty one. */
  function JoinPath(a: string, b: string): string {
    if a == "" then b else if b == "" then a else a + "/" + b
  }

  predicate EndsWith(s: string, suffix: string) {
    |suffix| <= |s| && s[|s| - |suffix|..] == suffix
  }

  /** `<out>/<pathname>/index.html` */
  function IndexHtmlPath(outDir: string, pathname: string): string {
    JoinPath(JoinPath(outDir, pathname), "index.html")
  }

  /** `<out>/<pathname>.html` */
  function FallbackHtmlPath(outDir: string, pathname: string): string {
    JoinPath(outDir, pathname + ".html")
  }

  lemma JoinPathSuffix(a: string, b: string, suffix: string)
    requires EndsWith(b, suffix) && suffix != ""
    ensures EndsWith(JoinPath(a, b), suffix)
  {
    if a != "" {
      assert (a + "/" + b)[|a + "/" + b| - |suffix|..] == b[|b| - |suffix|..];
    }
  }

  /**
   * The page file of a route: index.html when it exists, else the fallback,
   * else none. Both candidates end with ".html".
   */
  function PageFile(files: map<string, string>, outDir: string, pathname: string): (r: Option<string>)
    ensures r.Some? ==> r.value in files && EndsWith(r.value, ".html")
    ensures r.None? <==> IndexHtmlPath(outDir, pathname) !in files && FallbackHtmlPath(outDir, pathname) !in files
    ensures IndexHtmlPath(outDir, pathname) in files ==> r == Some(IndexHtmlPath(outDir, pathname))
    ensures IndexHtmlPath(outDir, pathname) !in files && r.Some? ==> r == Some(FallbackHtmlPath(outDir, pathname))
  {
    JoinPathSuffix(JoinPath(outDir, pathname), "index.html", ".html");
    assert EndsWith(pathname + ".html", ".html") by {
      assert (pathname + ".html")[|pathname|..] == ".html";
    }
    JoinPathSuffix(outDir, pathname + ".html", ".html");
    var indexPath := IndexHtmlPath(outDir, pathname);
    if indexPath in files then Some(indexPath)
    else
      var fallbackPath := FallbackHtmlPath(outDir, pathname);
      if fallbackPath in files then Some(fallbackPath) else None
  }

  /** The selector `style[data-ssr-emotion]`. */
  predicate IsMarker(e: Element) {
    e.tag == MarkerTag && HasAttribute(e, MarkerAttribute)
  }

  /** `body.querySelectorAll('style[data-ssr-emotion]')`: the markers, in document order. */
  function Markers(body: seq<Element>): (r: seq<Element>)
    ensures forall i :: 0 <= i < |r| ==> IsMarker(r[i])
    ensures forall i :: 0 <= i < |body| && IsMarker(body[i]) ==> body[i] in r
  {
    if body == [] then []
    else if IsMarker(body[0]) then [body[0]] + Markers(body[1..])
    else
      var r := Markers(body[1..]);
      assert forall i :: 1 <= i < |body| ==> body[i] == body[1..][i - 1];
      r
  }

  /** The body after `tag.remove()` on every marker: the other elements, in order. */
  function WithoutMarkers(body: seq<Element>): (r: seq<Element>)
    ensures forall i :: 0 <= i < |r| ==> !IsMarker(r[i])
    ensures forall i :: 0 <= i < |body| && !IsMarker(body[i]) ==> body[i] in r
  {
    if body == [] then []
    else if IsMarker(body[0]) then
      var r := WithoutMarkers(body[1..]);
      assert forall i :: 1 <= i < |body| ==> body[i] == body[1..][i - 1];
      r
    else [body[0]] + WithoutMarkers(body[1..])
  }

  /** Selecting the markers and removing them splits the body: nothing is lost or duplicated. */
  lemma {:induction false} MarkersPartition(body: seq<Element>)
    ensures multiset(Markers(body)) + multiset(WithoutMarkers(body)) == multiset(body)
  {
    if body != [] {
      MarkersPartition(body[1..]);
      assert body == [body[0]] + body[1..];
    }
  }

  /** Selection and removal keep document order: both distribute over concatenation. */
  lemma {:induction false} MarkersAppend(a: seq<Element>, b: seq<Element>)
    ensures Markers(a + b) == Markers(a) + Markers(b)
    ensures WithoutMarkers(a + b) == WithoutMarkers(a) + WithoutMarkers(b)
  {
    if a != [] {
      MarkersAppend(a[1..], b);
      assert (a + b)[1..] == a[1..] + b;
    } else {
      assert a + b == b;
    }
  }

  /** The text contents of the markers. */
  function Texts(markers: seq<Element>): (r: seq<string>)
    ensures |r| == |markers| && forall i :: 0 <= i < |r| ==> r[i] == markers[i].text
  {
    seq(|markers|, i requires 0 <= i < |markers| => markers[i].text)
  }

  /** `markers.map(tag => tag.textContent).join('\n').trim()` */
  function CombinedCss(markers: seq<Element>): string {
    Trim(Join(Texts(markers), "\n"))
  }

  /** The merged CSS is empty exactly when every marker's text is whitespace only. */
  lemma CombinedCssEmpty(markers: seq<Element>)
    ensures CombinedCss(markers) == "" <==> forall i :: 0 <= i < |markers| ==> AllWhitespace(markers[i].text)
  {
    var texts := Texts(markers);
    JoinAllWhitespace(texts, "\n");
  }

  /** `${assetsDir}/ssremo.${randomId}.css` */
  function StylesheetName(assetsDir: string, id: string): string {
    assetsDir + "/ssremo." + id + ".css"
  }

  /** `${base}/${fileName}`, with no collapsing of separators. */
  function Href(base: string, fileName: string): string {
    base + "/" + fileName
  }

  function StylesheetLink(href: string): Element {
    Element("link", [Attribute("rel", "stylesheet"), Attribute("href", href)], "")
  }

  /** The document after the markers are removed and the link is appended to <head>. */
  function Rewrite(doc: Document, href: string): (r: Document)
    ensures |r.head| == |doc.head| + 1 && r.head[..|doc.head|] == doc.head
    ensures r.head[|doc.head|] == StylesheetLink(href)
    ensures Markers(r.body) == []
    ensures WithoutMarkers(r.body) == WithoutMarkers(doc.body)
  {
    var body := WithoutMarkers(doc.body);
    NoMarkers(body);
    Document(doc.head + [StylesheetLink(href)], body)
  }

  lemma {:induction false} NoMarkers(body: seq<Element>)
    requires forall i :: 0 <= i < |body| ==> !IsMarker(body[i])
    ensures Markers(body) == [] && WithoutMarkers(body) == body
  {
    if body != [] {
      NoMarkers(body[1..]);
      assert [body[0]] + body[1..] == body;
    }
  }

  /** A stylesheet path `<out>/<assetsDir>/ssremo.<8 lower-case hex digits>.css`. */
  predicate IsStylesheetPath(outDir: string, assetsDir: string, p: string) {
    var prefix := JoinPath(outDir, assetsDir + "/ssremo.");
    && |p| == |prefix| + 12
    && p[..|prefix|] == prefix
    && IsLowerHex(p[|prefix|..|prefix| + 8])
    && p[|prefix| + 8..] == ".css"
  }

  /** The path of a stylesheet is the stylesheet prefix, the id and ".css". */
  lemma StylesheetPathOf(outDir: string, assetsDir: string, id: string)
    ensures JoinPath(outDir, StylesheetName(assetsDir, id)) == JoinPath(outDir, assetsDir + "/ssremo.") + id + ".css"
  {
  }

  /** The path written for 4 random bytes is a stylesheet path, and its id is their hex. */
  lemma StylesheetPathShape(outDir: string, assetsDir: string, entropy: Bytes4)
    ensures var p := JoinPath(outDir, StylesheetName(assetsDir, Hex(entropy)));
      IsStylesheetPath(outDir, assetsDir, p) && EndsWith(p, ".css")
  {
    var id := Hex(entropy);
    var prefix := JoinPath(outDir, assetsDir + "/ssremo.");
    var p := JoinPath(outDir, StylesheetName(assetsDir, id));
    StylesheetPathOf(outDir, assetsDir, id);
    assert p[..|prefix|] == prefix;
    assert p[|prefix|..|prefix| + 8] == id;
    assert p[|prefix| + 8..] == ".css";
    assert p[|p| - 4..] == ".css";
  }

  lemma SameMiddle(prefix: string, a: string, b: string, suffix: string)
    requires |a| == |b| && prefix + a + suffix == prefix + b + suffix
    ensures a == b
  {
    assert (prefix + a + suffix)[|prefix|..|prefix| + |a|] == a;
    assert (prefix + b + suffix)[|prefix|..|prefix| + |b|] == b;
  }

  /** Different random bytes give different stylesheet files: no two pages share one. */
  lemma DistinctEntropyDistinctFiles(outDir: string, assetsDir: string, e1: Bytes4, e2: Bytes4)
    requires e1 != e2
    ensures JoinPath(outDir, StylesheetName(assetsDir, Hex(e1))) != JoinPath(outDir, StylesheetName(assetsDir, Hex(e2)))
  {
    var prefix := JoinPath(outDir, assetsDir + "/ssremo.");
    var h1, h2 := Hex(e1), Hex(e2);
    StylesheetPathOf(outDir, assetsDir, h1);
    StylesheetPathOf(outDir, assetsDir, h2);
    if prefix + h1 + ".css" == prefix + h2 + ".css" {
      SameMiddle(prefix, h1, h2, ".css");
      HexInjective(e1, e2);
    }
  }

  /** A stylesheet path and a page file are never the same path. */
  lemma CssIsNotHtml(p: string)
    requires EndsWith(p, ".css")
    ensures !EndsWith(p, ".html")
  {
    assert p[|p| - 1] == p[|p| - 4..][3];
  }

  /** The link href keeps a trailing separator of the base: it does not collapse "//". */
  lemma HrefKeepsDoubledSeparator(base: string, fileName: string)
    requires |base| >= 1 && base[|base| - 1] == '/'
    ensures Href(base, fileName)[|base| - 1..|base| + 1] == "//"
  {
  }

  /** What the pass works with for one run. */
  datatype Env = Env(outDir: string, assetsDir: string, base: string, dom: DomLibrary)

  function EnvOf(outDir: string, c: Config, dom: DomLibrary): Env {
    Env(outDir, AssetsDir(c), Base(c), dom)
  }

  /** The observable state: the files, the console lines and the count of rewritten pages. */
  datatype State = State(files: map<string, string>, console: seq<string>, count: nat)

  /** The merged CSS of the page file, or "" when there is none to move. */
  function PageCss(env: Env, files: map<string, string>, htmlPath: string): string
    requires htmlPath in files
  {
    var markers := Markers(env.dom.parse(files[htmlPath]).body);
    if |markers| == 0 then "" else CombinedCss(markers)
  }

  /** The page is rewritten: its file exists and its merged CSS is not empty. */
  predicate Rewrites(env: Env, files: map<string, string>, pathname: string) {
    var htmlPath := PageFile(files, env.outDir, pathname);
    htmlPath.Some? && PageCss(env, files, htmlPath.value) != ""
  }

  /** One iteration of the page loop: skip a missing page or one with no CSS to move, else rewrite it. */
  function PageStep(env: Env, st: State, pathname: string, entropy: Bytes4): State {
    match PageFile(st.files, env.outDir, pathname)
    case None => st
    case Some(htmlPath) =>
      if PageCss(env, st.files, htmlPath) == "" then st else RewritePage(env, st, htmlPath, entropy)
  }

  /**
   * The writes of a page with CSS to move: the stylesheet first, then the
   * page with the doctype prefix; one line is logged and the page counted.
   */
  function RewritePage(env: Env, st: State, htmlPath: string, entropy: Bytes4): State
    requires htmlPath in st.files
  {
    var fileName := StylesheetName(env.assetsDir, Hex(entropy));
    var href := Href(env.base, fileName);
    State(
      st.files[JoinPath(env.outDir, fileName) := PageCss(env, st.files, htmlPath)]
              [htmlPath := Doctype + env.dom.serialize(Rewrite(env.dom.parse(st.files[htmlPath]), href))],
      st.console + [LogPrefix + href],
      st.count + 1)
  }

  /** The page is a page file rewritten by the pass: its content starts with the doctype. */
  predicate IsRewrittenPage(p: string, content: string) {
    EndsWith(p, ".html") && |Doctype| <= |content| && content[..|Doctype|] == Doctype
  }

  /**
   * A skipped page changes nothing; a rewritten page adds exactly the
   * stylesheet holding its merged CSS, rewrites its own file with the doctype
   * prefix, logs one line and counts one; no other file changes.
   */
  lemma PageStepEffect(env: Env, st: State, pathname: string, entropy: Bytes4)
    ensures !Rewrites(env, st.files, pathname) ==> PageStep(env, st, pathname, entropy) == st
    ensures Rewrites(env, st.files, pathname) ==>
      var r := PageStep(env, st, pathname, entropy);
      var htmlPath := PageFile(st.files, env.outDir, pathname).value;
      var fileName := StylesheetName(env.assetsDir, Hex(entropy));
      var cssPath := JoinPath(env.outDir, fileName);
      && r.count == st.count + 1
      && r.console == st.console + [LogPrefix + Href(env.base, fileName)]
      && r.files.Keys == st.files.Keys + {cssPath}
      && IsStylesheetPath(env.outDir, env.assetsDir, cssPath)
      && r.files[cssPath] == PageCss(env, st.files, htmlPath)
      && IsRewrittenPage(htmlPath, r.files[htmlPath])
      && r.files[htmlPath] == Doctype + env.dom.serialize(Rewrite(env.dom.parse(st.files[htmlPath]), Href(env.base, fileName)))
      && forall p :: p in st.files && p != htmlPath && p != cssPath ==> r.files[p] == st.files[p]
  {
    if Rewrites(env, st.files, pathname) {
      var htmlPath := PageFile(st.files, env.outDir, pathname).value;
      var cssPath := JoinPath(env.outDir, StylesheetName(env.assetsDir, Hex(entropy)));
      StylesheetPathShape(env.outDir, env.assetsDir, entropy);
      CssIsNotHtml(cssPath);
      var r := PageStep(env, st, pathname, entropy);
      var content := r.files[htmlPath];
      assert content[..|Doctype|] == Doctype;
    }
  }

  /** The loop over the first |pages| pages. */
  function RunPages(env: Env, st: State, pages: seq<Page>, entropy: seq<Bytes4>): State
    requires |entropy| == |pages|
  {
    if pages == [] then st
    else
      var n := |pages| - 1;
      PageStep(env, RunPages(env, st, pages[..n], entropy[..n]), pages[n].pathname, entropy[n])
  }

  /** `if (count) console.log('')` */
  function Finish(st: State): State {
    if st.count > 0 then st.(console := st.console + [""]) else st
  }

  predicate IsLogLine(line: string) {
    |LogPrefix| <= |line| && line[..|LogPrefix|] == LogPrefix
  }

  /**
   * The count grows by at most one per page, and the console gains exactly
   * one "[SSR Emotion]" line per counted page.
   */
  lemma {:induction false} RunCounts(env: Env, st: State, pages: seq<Page>, entropy: seq<Bytes4>)
    requires |entropy| == |pages|
    ensures var r := RunPages(env, st, pages, entropy);
      && st.count <= r.count <= st.count + |pages|
      && |r.console| == |st.console| + (r.count - st.count)
      && r.console[..|st.console|] == st.console
      && forall j :: |st.console| <= j < |r.console| ==> IsLogLine(r.console[j])
  {
    if pages != [] {
      var n := |pages| - 1;
      RunCounts(env, st, pages[..n], entropy[..n]);
      var mid := RunPages(env, st, pages[..n], entropy[..n]);
      var r := RunPages(env, st, pages, entropy);
      if r != mid {
        var line := LogPrefix + Href(env.base, StylesheetName(env.assetsDir, Hex(entropy[n])));
        assert r.console == mid.console + [line];
        assert line[..|LogPrefix|] == LogPrefix;
        assert r.console[..|st.console|] == mid.console[..|st.console|];
      }
    }
  }

  /**
   * The pass never deletes a file; every file it adds is a stylesheet path;
   * every existing file it changes is a stylesheet path or a page file that
   * now starts with the doctype.
   */
  lemma {:induction false} RunWrites(env: Env, st: State, pages: seq<Page>, entropy: seq<Bytes4>)
    requires |entropy| == |pages|
    ensures var r := RunPages(env, st, pages, entropy);
      && st.files.Keys <= r.files.Keys
      && (forall p :: p in r.files && p !in st.files ==> IsStylesheetPath(env.outDir, env.assetsDir, p))
      && (forall p :: p in st.files && r.files[p] != st.files[p] ==>
            IsStylesheetPath(env.outDir, env.assetsDir, p) || IsRewrittenPage(p, r.files[p]))
  {
    if pages != [] {
      var n := |pages| - 1;
      RunWrites(env, st, pages[..n], entropy[..n]);
      var mid := RunPages(env, st, pages[..n], entropy[..n]);
      PageStepEffect(env, mid, pages[n].pathname, entropy[n]);
    }
  }

  /**
   * After a run that starts from a zero count, the lines the run appends end
   * with the blank line exactly when some page was rewritten.
   */
  lemma BlankLineIffCount(env: Env, st: State, pages: seq<Page>, entropy: seq<Bytes4>)
    requires |entropy| == |pages| && st.count == 0
    ensures var r := Finish(RunPages(env, st, pages, entropy));
      (|r.console| > |st.console| && r.console[|r.console| - 1] == "") <==> r.count > 0
  {
    RunCounts(env, st, pages, entropy);
    var mid := RunPages(env, st, pages, entropy);
    if mid.count > 0 {
      assert Finish(mid).console[|Finish(mid).console| - 1] == "";
    }
  }

  /** The DOM library reads back what it wrote behind the doctype. */
  ghost predicate RoundTrips(dom: DomLibrary) {
    forall d :: dom.parse(Doctype + dom.serialize(d)) == d
  }

  /** Rewriting a page adds only a ".css" file, so the same page file is found afterwards. */
  lemma RewriteKeepsPageFile(env: Env, st: State, pathname: string, entropy: Bytes4)
    requires PageFile(st.files, env.outDir, pathname).Some?
    ensures var htmlPath := PageFile(st.files, env.outDir, pathname).value;
      PageFile(RewritePage(env, st, htmlPath, entropy).files, env.outDir, pathname) == Some(htmlPath)
  {
    var htmlPath := PageFile(st.files, env.outDir, pathname).value;
    var files' := RewritePage(env, st, htmlPath, entropy).files;
    var cssPath := JoinPath(env.outDir, StylesheetName(env.assetsDir, Hex(entropy)));
    assert files'.Keys == st.files.Keys + {cssPath};
    StylesheetPathShape(env.outDir, env.assetsDir, entropy);
    CssIsNotHtml(cssPath);
    var indexPath := IndexHtmlPath(env.outDir, pathname);
    JoinPathSuffix(JoinPath(env.outDir, pathname), "index.html", ".html");
    assert indexPath in files' <==> indexPath in st.files;
  }

  /**
   * A rewritten page, read back, is the rewritten document: no marker is left,
   * its head ends with the link to the stylesheet just written, and it has no
   * CSS left to move.
   */
  lemma RewrittenPageHasNoCss(env: Env, st: State, htmlPath: string, entropy: Bytes4)
    requires htmlPath in st.files && RoundTrips(env.dom)
    ensures var fileName := StylesheetName(env.assetsDir, Hex(entropy));
      var d := env.dom.parse(RewritePage(env, st, htmlPath, entropy).files[htmlPath]);
      && d == Rewrite(env.dom.parse(st.files[htmlPath]), Href(env.base, fileName))
      && Markers(d.body) == []
      && |d.head| >= 1 && d.head[|d.head| - 1] == StylesheetLink(Href(env.base, fileName))
    ensures PageCss(env, RewritePage(env, st, htmlPath, entropy).files, htmlPath) == ""
  {
    var href := Href(env.base, StylesheetName(env.assetsDir, Hex(entropy)));
    var doc := Rewrite(env.dom.parse(st.files[htmlPath]), href);
    assert RewritePage(env, st, htmlPath, entropy).files[htmlPath] == Doctype + env.dom.serialize(doc);
    assert env.dom.parse(Doctype + env.dom.serialize(doc)) == doc;
  }

  /** Running the pass over a page it has already rewritten changes nothing. */
  lemma PageStepIdempotent(env: Env, st: State, pathname: string, e1: Bytes4, e2: Bytes4)
    requires RoundTrips(env.dom)
    ensures var st1 := PageStep(env, st, pathname, e1);
      PageStep(env, st1, pathname, e2) == st1
  {
    var st1 := PageStep(env, st, pathname, e1);
    if st1 != st {
      var htmlPath := PageFile(st.files, env.outDir, pathname).value;
      assert st1 == RewritePage(env, st, htmlPath, e1);
      RewriteKeepsPageFile(env, st, pathname, e1);
      RewrittenPageHasNoCss(env, st, htmlPath, e1);
    }
  }

  function MarkerOf(text: string): Element {
    Element(MarkerTag, [Attribute(MarkerAttribute, "")], text)
  }

  /** Two markers whose texts are not padded by whitespace are merged verbatim, joined by a newline. */
  lemma TwoMarkersSelection(t1: string, t2: string)
    requires t1 != "" && !IsJsWhitespace(t1[0])
    requires t2 != "" && !IsJsWhitespace(t2[|t2| - 1])
    ensures var body := [MarkerOf(t1), MarkerOf(t2)];
      && Markers(body) == body && WithoutMarkers(body) == []
      && CombinedCss(body) == t1 + "\n" + t2
  {
    var m1, m2 := MarkerOf(t1), MarkerOf(t2);
    var body := [m1, m2];
    assert IsMarker(m1) && IsMarker(m2) by {
      assert m1.attributes[0].name == MarkerAttribute;
      assert m2.attributes[0].name == MarkerAttribute;
    }
    assert Markers(body[1..][1..]) == [] && WithoutMarkers(body[1..][1..]) == [] by {
      assert body[1..][1..] == [];
    }
    assert Markers(body[1..]) == [m2] && WithoutMarkers(body[1..]) == [];
    assert Markers(body) == body && WithoutMarkers(body) == [];
    var joined := t1 + "\n" + t2;
    assert Join(Texts(body), "\n") == joined by {
      assert Texts(body) == [t1, t2];
      assert [t1, t2][1..] == [t2];
    }
    assert joined[0] == t1[0] && joined[|joined| - 1] == t2[|t2| - 1];
    TrimUnpadded(joined);
  }

  /** A document holding the two markers gives their joined text and loses both to the rewrite. */
  lemma TwoMarkersDocument(doc: Document, head: seq<Element>, t1: string, t2: string, href: string)
    requires t1 != "" && !IsJsWhitespace(t1[0])
    requires t2 != "" && !IsJsWhitespace(t2[|t2| - 1])
    requires doc == Document(head, [MarkerOf(t1), MarkerOf(t2)])
    ensures |Markers(doc.body)| != 0 && CombinedCss(Markers(doc.body)) == t1 + "\n" + t2
    ensures Rewrite(doc, href) == Document(head + [StylesheetLink(href)], [])
  {
    TwoMarkersSelection(t1, t2);
  }

  /** The writes for a page holding the two markers, with the href built from an empty base. */
  lemma TwoMarkersRewrite(env: Env, st: State, htmlPath: string, head: seq<Element>, t1: string, t2: string, entropy: Bytes4)
    requires env.base == ""
    requires t1 != "" && !IsJsWhitespace(t1[0])
    requires t2 != "" && !IsJsWhitespace(t2[|t2| - 1])
    requires htmlPath in st.files
    requires env.dom.parse(st.files[htmlPath]) == Document(head, [MarkerOf(t1), MarkerOf(t2)])
    ensures PageCss(env, st.files, htmlPath) == t1 + "\n" + t2
    ensures var fileName := StylesheetName(env.assetsDir, Hex(entropy));
      RewritePage(env, st, htmlPath, entropy) == State(
        st.files[JoinPath(env.outDir, fileName) := t1 + "\n" + t2]
                [htmlPath := Doctype + env.dom.serialize(Document(head + [StylesheetLink("/" + fileName)], []))],
        st.console + [LogPrefix + "/" + fileName],
        st.count + 1)
  {
    var fileName := StylesheetName(env.assetsDir, Hex(entropy));
    var href := "/" + fileName;
    TwoMarkersDocument(env.dom.parse(st.files[htmlPath]), head, t1, t2, href);
    assert Href(env.base, fileName) == href;
    assert LogPrefix + href == LogPrefix + "/" + fileName;
  }

  /**
   * The worked example: a page holding two markers, under base "/", gets a
   * stylesheet with both texts joined by a newline, a head ending in the link
   * "/<assetsDir>/ssremo.<id>.css", and a body without the markers.
   */
  lemma TwoMarkersPage(outDir: string, c: Config, dom: DomLibrary, st: State, pathname: string, head: seq<Element>,
                       t1: string, t2: string, entropy: Bytes4)
    requires c.base == "/"
    requires t1 != "" && !IsJsWhitespace(t1[0])
    requires t2 != "" && !IsJsWhitespace(t2[|t2| - 1])
    requires PageFile(st.files, outDir, pathname).Some?
    requires dom.parse(st.files[PageFile(st.files, outDir, pathname).value]) == Document(head, [MarkerOf(t1), MarkerOf(t2)])
    ensures var htmlPath := PageFile(st.files, outDir, pathname).value;
      var fileName := AssetsDir(c) + "/ssremo." + Hex(entropy) + ".css";
      PageStep(EnvOf(outDir, c, dom), st, pathname, entropy) == State(
        st.files[JoinPath(outDir, fileName) := t1 + "\n" + t2]
                [htmlPath := Doctype + dom.serialize(Document(head + [StylesheetLink("/" + fileName)], []))],
        st.console + [LogPrefix + "/" + fileName],
        st.count + 1)
  {
    var env := EnvOf(outDir, c, dom);
    var htmlPath := PageFile(st.files, outDir, pathname).value;
    TwoMarkersRewrite(env, st, htmlPath, head, t1, t2, entropy);
    assert PageStep(env, st, pathname, entropy) == RewritePage(env, st, htmlPath, entropy);
  }

  /** The parts of Node the pass touches: the file system (`fs`) and the console. */
  class Host {
    var files: map<string, string>
    var console: seq<string>

    constructor (files: map<string, string>)
      ensures this.files == files && console == []
    {
      this.files := files;
      console := [];
    }

    /** `fs.existsSync(path)` */
    method ExistsSync(path: string) returns (b: bool)
      ensures b <==> path in files
    {
      b := path in files;
    }

    /** `fs.readFileSync(path, 'utf-8')` */
    method ReadFileSync(path: string) returns (content: string)
      requires path in files
      ensures content == files[path]
    {
      content := files[path];
    }

    /** `fs.writeFileSync(path, content)` */
    method WriteFileSync(path: string, content: string)
      modifies this
      ensures files == old(files)[path := content] && console == old(console)
    {
      files := files[path := content];
    }

    /** `console.log(line)` */
    method Log(line: string)
      modifies this
      ensures console == old(console) + [line] && files == old(files)
    {
      console := console + [line];
    }
  }

  /**
   * The default export of astro-build-done.js: `config` is what the
   * integration saved (None for null), `entropy[i]` the bytes drawn for
   * `pages[i]`. Returns the count of rewritten pages.
   */
  method BuildDone(host: Host, outDir: string, pages: seq<Page>, config: Option<Config>, dom: DomLibrary, entropy: seq<Bytes4>)
    returns (r: Result<nat, BuildError>)
    requires |entropy| == |pages|
    modifies host
    ensures config.None? ==> r == Failure(NullConfig) && host.files == old(host.files) && host.console == old(host.console)
    ensures config.Some? ==>
      var final := Finish(RunPages(EnvOf(outDir, config.value, dom), State(old(host.files), old(host.console), 0), pages, entropy));
      r == Success(final.count) && host.files == final.files && host.console == final.console
  {
    if config.None? {
      return Failure(NullConfig);
    }
    var assetsDir := AssetsDir(config.value);
    var base := Base(config.value);
    var env := Env(outDir, assetsDir, base, dom);
    ghost var st0 := State(host.files, host.console, 0);
    var count := 0;

    for i := 0 to |pages|
      invariant State(host.files, host.console, count) == RunPages(env, st0, pages[..i], entropy[..i])
    {
      assert pages[..i + 1][..i] == pages[..i] && entropy[..i + 1][..i] == entropy[..i];
      ghost var before := State(host.files, host.console, count);
      ghost var after := PageStep(env, before, pages[i].pathname, entropy[i]);
      assert RunPages(env, st0, pages[..i + 1], entropy[..i + 1]) == after;

      var htmlPath := IndexHtmlPath(outDir, pages[i].pathname);
      var found := host.ExistsSync(htmlPath);
      if !found {
        var fallbackPath := FallbackHtmlPath(outDir, pages[i].pathname);
        found := host.ExistsSync(fallbackPath);
        if !found {
          continue;
        }
        htmlPath := fallbackPath;
      }
      assert PageFile(host.files, outDir, pages[i].pathname) == Some(htmlPath);

      var rawHtml := host.ReadFileSync(htmlPath);
      var document := dom.parse(rawHtml);
      var styleTags := Markers(document.body);
      if |styleTags| == 0 {
        continue;
      }
      var combinedCss := CombinedCss(styleTags);
      if combinedCss == "" {
        continue;
      }

      var randomId := Hex(entropy[i]);
      var fileName := StylesheetName(assetsDir, randomId);
      var finalPath := JoinPath(outDir, fileName);
      host.WriteFileSync(finalPath, combinedCss);

      ghost var parsed := document;
      document := document.(body := WithoutMarkers(document.body));
      var href := Href(base, fileName);
      document := document.(head := document.head + [StylesheetLink(href)]);
      assert document == Rewrite(parsed, href);

      host.Log(LogPrefix + href);
      count := count + 1;
      host.WriteFileSync(htmlPath, Doctype + dom.serialize(document));
    }

    if count > 0 {
      host.Log("");
    }
    assert pages[..|pages|] == pages && entropy[..|entropy|] == entropy;
    return Success(count);
  }
}
