/**
 * The server-side renderer Astro calls for React components: it recognises a
 * component, renders it to a string with React, extracts Emotion's critical
 * CSS from that string and puts a <style> tag carrying the CSS in front of the
 * markup. React's renderToString and Emotion's extractCritical are libraries
 * this model does not open up; they are passed in as functions.
 */
module AstroRender {
  import opened Wrappers
  import opened Text
  import opened Js
  import opened Dom

  /** The `name` of the render module's default export. */
  const RendererName := "ssr-emotion"

  /**
   * `check(Component)`: a function component is accepted outright; otherwise
   * the value of `Component && Component.$$typeof` is returned, which Astro
   * reads for its truthiness.
   */
  function Check(component: JsValue): (r: JsValue)
    ensures Truthy(r) <==> component.Function? || (component.Object? && Truthy(Get(component, "$$typeof")))
    ensures component.Function? ==> r == Bool(true)
    ensures !Truthy(component) ==> r == component
  {
    if component.Function? then Bool(true)
    else if !Truthy(component) then component
    else Get(component, "$$typeof")
  }

  /** What `React.createElement(type, props, children)` builds; `null` children are None. */
  datatype ElementType = Tag(name: string) | Component(value: JsValue)
  datatype ReactElement = ReactElement(kind: ElementType, props: JsValue, children: Option<ReactElement>)

  /** The `{ ids, css }` that `extractCritical(html)` returns. */
  datatype Critical = Critical(ids: seq<string>, css: string)

  /** React's `renderToString` and Emotion's `extractCritical`. */
  datatype ServerLibraries = ServerLibraries(renderToString: ReactElement -> string, extractCritical: string -> Critical)

  /** The `{ html }` object `renderToStaticMarkup` resolves to. */
  datatype Rendered = Rendered(html: string)

  /**
   * The children handed to the component: a `<div style="display: contents">`
   * whose inner HTML is the default slot, when `slots?.default` is truthy, and
   * `null` otherwise.
   */
  function Children(slots: JsValue): (r: Option<ReactElement>)
    ensures r.Some? <==> Truthy(Get(slots, "default"))
    ensures r.Some? ==>
      && r.value.kind == Tag("div") && r.value.children.None?
      && Get(Get(r.value.props, "style"), "display") == Str("contents")
      && Get(Get(r.value.props, "dangerouslySetInnerHTML"), "__html") == Get(slots, "default")
  {
    var slot := Get(slots, "default");
    if Truthy(slot) then
      Some(ReactElement(Tag("div"),
        Object(map[
          "style" := Object(map["display" := Str("contents")]),
          "dangerouslySetInnerHTML" := Object(map["__html" := slot])]),
        None))
    else None
  }

  const StyleOpen := "<style data-emotion=\"css "
  const StyleOpenEnd := "\">"
  const StyleClose := "</style>"

  /** `<style data-emotion="css ${ids.join(' ')}">${css}</style>` */
  function StyleTag(ids: seq<string>, css: string): string {
    StyleOpen + Join(ids, " ") + StyleOpenEnd + css + StyleClose
  }

  /**
   * `renderToStaticMarkup(Component, props, slots)`: the html is the style tag
   * for the critical CSS of the rendered markup, followed by that markup.
   */
  function RenderToStaticMarkup(component: JsValue, props: JsValue, slots: JsValue, libs: ServerLibraries): (r: Rendered)
    ensures var markup := libs.renderToString(ReactElement(Component(component), props, Children(slots)));
      var critical := libs.extractCritical(markup);
      && r.html == OuterHtml(StyleElement(critical.ids, critical.css)) + markup
      && |StyleOpen| <= |r.html| && r.html[..|StyleOpen|] == StyleOpen
      && |markup| <= |r.html| && r.html[|r.html| - |markup|..] == markup
  {
    var markup := libs.renderToString(ReactElement(Component(component), props, Children(slots)));
    var critical := libs.extractCritical(markup);
    var styleTag := StyleTag(critical.ids, critical.css);
    StyleTagIsElement(critical.ids, critical.css);
    assert (styleTag + markup)[|styleTag|..] == markup;
    Rendered(styleTag + markup)
  }

  /** The class names in the attribute value after "css ": none for an empty value. */
  function Words(attr: string): seq<string> {
    if attr == "" then [] else Split(attr, ' ')
  }

  /**
   * A reader for the renderer's output: the ids and CSS of the leading style
   * tag and the markup after it, or None when html does not start with one.
   */
  function ParseRendered(html: string): Option<(seq<string>, string, string)> {
    if |html| < |StyleOpen| || html[..|StyleOpen|] != StyleOpen then None
    else
      var afterOpen := html[|StyleOpen|..];
      match IndexOf(afterOpen, StyleOpenEnd)
      case None => None
      case Some(i) =>
        var content := afterOpen[i + |StyleOpenEnd|..];
        match IndexOf(content, StyleClose)
        case None => None
        case Some(j) => Some((Words(afterOpen[..i]), content[..j], content[j + |StyleClose|..]))
  }

  /** Ids that survive the space-joined attribute: non-empty, with no space and no quote. */
  predicate PlainIds(ids: seq<string>) {
    forall i :: 0 <= i < |ids| ==> ids[i] != "" && ' ' !in ids[i] && '"' !in ids[i]
  }

  /** The attribute value gives the ids back. */
  lemma WordsJoin(ids: seq<string>)
    requires PlainIds(ids)
    ensures Words(Join(ids, " ")) == ids
    ensures '"' !in Join(ids, " ")
  {
    JoinAvoids(ids, " ", '"');
    if ids != [] {
      assert Join(ids, " ") != "" by {
        if |ids| >= 2 {
          assert Join(ids, " ") == ids[0] + " " + Join(ids[1..], " ");
        }
      }
      SplitJoin(ids, ' ');
    }
  }

  /** The attribute value, which holds no quote, ends at the first `">`. */
  lemma AttributeEnds(attr: string, rest: string)
    requires '"' !in attr
    ensures var s := attr + StyleOpenEnd + rest;
      && IndexOf(s, StyleOpenEnd) == Some(|attr|)
      && s[..|attr|] == attr
      && s[|attr| + |StyleOpenEnd|..] == rest
  {
    FirstCharAbsent(attr, StyleOpenEnd);
    IndexOfAfter(attr, StyleOpenEnd, rest);
  }

  /** CSS holding no `</style>` ends at the first `</style>`. */
  lemma CssEnds(css: string, markup: string)
    requires !Contains(css, StyleClose)
    ensures var s := css + StyleClose + markup;
      && IndexOf(s, StyleClose) == Some(|css|)
      && s[..|css|] == css
      && s[|css| + |StyleClose|..] == markup
  {
    IndexOfAfter(css, StyleClose, markup);
  }

  /** A tag opening, a quote-free attribute value and CSS holding no `</style>` read back as those parts. */
  lemma ParseParts(attr: string, css: string, markup: string)
    requires '"' !in attr && !Contains(css, StyleClose)
    ensures ParseRendered(StyleOpen + (attr + StyleOpenEnd + (css + StyleClose + markup))) == Some((Words(attr), css, markup))
  {
    var content := css + StyleClose + markup;
    var afterOpen := attr + StyleOpenEnd + content;
    var html := StyleOpen + afterOpen;
    assert html[..|StyleOpen|] == StyleOpen && html[|StyleOpen|..] == afterOpen;
    AttributeEnds(attr, content);
    CssEnds(css, markup);
  }

  /**
   * The style tag followed by any markup reads back as its ids, its CSS and
   * that markup, provided the ids are plain and the CSS holds no "</style>".
   */
  lemma {:induction false} ParseStyleTag(ids: seq<string>, css: string, markup: string)
    requires PlainIds(ids) && !Contains(css, StyleClose)
    ensures ParseRendered(StyleTag(ids, css) + markup) == Some((ids, css, markup))
  {
    var attr := Join(ids, " ");
    assert StyleTag(ids, css) + markup == StyleOpen + (attr + StyleOpenEnd + (css + StyleClose + markup));
    WordsJoin(ids);
    ParseParts(attr, css, markup);
  }

  /**
   * The renderer's output reads back as the critical ids and CSS that
   * extractCritical gave for the markup, followed by that markup.
   */
  lemma RenderedParses(component: JsValue, props: JsValue, slots: JsValue, libs: ServerLibraries)
    requires var markup := libs.renderToString(ReactElement(Component(component), props, Children(slots)));
      PlainIds(libs.extractCritical(markup).ids) && !Contains(libs.extractCritical(markup).css, StyleClose)
    ensures var markup := libs.renderToString(ReactElement(Component(component), props, Children(slots)));
      var critical := libs.extractCritical(markup);
      ParseRendered(RenderToStaticMarkup(component, props, slots, libs).html) == Some((critical.ids, critical.css, markup))
  {
    var markup := libs.renderToString(ReactElement(Component(component), props, Children(slots)));
    var critical := libs.extractCritical(markup);
    ParseStyleTag(critical.ids, critical.css, markup);
  }

  /** The attribute the renderer marks its style tag with. */
  const EmittedAttribute := "data-emotion"

  /** The element a DOM parser sees for the style tag. */
  function StyleElement(ids: seq<string>, css: string): Element {
    Element("style", [Attribute(EmittedAttribute, "css " + Join(ids, " "))], css)
  }

  /** The style element carries data-emotion and no other attribute. */
  lemma StyleElementAttributes(ids: seq<string>, css: string)
    ensures forall name :: HasAttribute(StyleElement(ids, css), name) <==> name == EmittedAttribute
  {
    assert StyleElement(ids, css).attributes[0].name == EmittedAttribute;
  }

  /** The style tag is the outer HTML of the style element. */
  lemma StyleTagIsElement(ids: seq<string>, css: string)
    ensures OuterHtml(StyleElement(ids, css)) == StyleTag(ids, css)
  {
    var attr := Join(ids, " ");
    var tagOpen, value := "<style data-emotion=\"", "css " + attr;
    OuterHtmlSingle("style", EmittedAttribute, value, css);
    assert "<" + "style" + " " + EmittedAttribute + "=\"" == tagOpen;
    assert "</" + "style" + ">" == StyleClose;
    assert tagOpen + "css " == StyleOpen;
    assert tagOpen + value == StyleOpen + attr;
  }
}
