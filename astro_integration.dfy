/**
 * The Astro integration object: its `astro:config:setup` hook makes sure
 * @astrojs/react is configured (importing it when it is missing), warns when
 * @astrojs/react is listed before this integration, registers the renderer,
 * keeps the configuration for later and marks the Emotion packages as SSR
 * externals; its `astro:build:done` hook runs the CSS consolidation pass
 * with the configuration it kept.
 */
module AstroIntegration {
  import opened Wrappers
  import opened Dom
  import opened AstroConfig
  import AstroRender
  import opened AstroBuildDone

  /** The integration's own name, and the name @astrojs/react registers under. */
  const SelfName := "ssr-emotion-react"
  const ReactName := "@astrojs/react"

  datatype Renderer = Renderer(name: string, serverEntrypoint: string, clientEntrypoint: string)

  /** The renderer `addRenderer` is given. */
  const SelfRenderer := Renderer(SelfName, "ssr-emotion-react/astro/render", "ssr-emotion-react/astro/client")

  /** The packages Vite must leave external in the server build. */
  const SsrExternals := ["@emotion/css", "@emotion/server"]

  /**
   * What the setup hook does, in order: attempt `import('@astrojs/react')`;
   * `updateConfig({ integrations })` with the named integrations; log the
   * missing-package error; log the order warning; `addRenderer`;
   * `updateConfig({ vite: { ssr: { external } } })`.
   */
  datatype Effect =
    | ImportReact
    | AddIntegrations(names: seq<string>)
    | LogError
    | LogWarn
    | AddRenderer(renderer: Renderer)
    | SetSsrExternal(packages: seq<string>)

  /** The effects of one run of the hook, and whether it ran to the end (rather than returning early). */
  datatype SetupOutcome = SetupOutcome(effects: seq<Effect>, completed: bool)

  /** `Array.prototype.findIndex` by name: the first index holding x, or -1. */
  function FindIndex(xs: seq<string>, x: string): (r: int)
    ensures r == -1 <==> x !in xs
    ensures r != -1 ==> 0 <= r < |xs| && xs[r] == x && x !in xs[..r]
  {
    if xs == [] then -1
    else if xs[0] == x then 0
    else
      var r := FindIndex(xs[1..], x);
      if r == -1 then -1
      else
        assert xs[..r + 1] == [xs[0]] + xs[1..][..r];
        r + 1
  }

  /** `config.integrations?.find((i) => i.name === '@astrojs/react')` finds one. */
  predicate HasReact(integrations: Option<seq<string>>) {
    integrations.Some? && ReactName in integrations.value
  }

  /**
   * The decisions of the `astro:config:setup` hook over the integration names
   * and whether importing and instantiating @astrojs/react succeeds.
   */
  function Setup(integrations: Option<seq<string>>, reactImport: bool): SetupOutcome {
    var tail := [AddRenderer(SelfRenderer), SetSsrExternal(SsrExternals)];
    if !HasReact(integrations) then
      if reactImport then SetupOutcome([ImportReact, AddIntegrations([ReactName])] + tail, true)
      else SetupOutcome([ImportReact, LogError], false)
    else
      var selfIndex := FindIndex(integrations.value, SelfName);
      // `indexOf(reactIntegration)`: the object `find` returned is the first one with that name.
      var reactIndex := FindIndex(integrations.value, ReactName);
      var warning := if selfIndex != -1 && reactIndex != -1 && reactIndex < selfIndex then [LogWarn] else [];
      SetupOutcome(warning + tail, true)
  }

  /** @astrojs/react occurs in the list before any occurrence of this integration, which does occur. */
  predicate ReactBeforeSelf(xs: seq<string>) {
    SelfName in xs && exists i :: 0 <= i < |xs| && xs[i] == ReactName && SelfName !in xs[..i]
  }

  /** With @astrojs/react already listed, nothing is imported and no integration is added. */
  lemma PresentReactIsKept(integrations: Option<seq<string>>, reactImport: bool)
    requires HasReact(integrations)
    ensures var o := Setup(integrations, reactImport);
      && o.completed
      && ImportReact !in o.effects
      && forall i :: 0 <= i < |o.effects| ==> !o.effects[i].AddIntegrations?
  {
  }

  /** The order warning is logged exactly when @astrojs/react is listed before this integration. */
  lemma WarnIffReactFirst(integrations: Option<seq<string>>, reactImport: bool)
    ensures LogWarn in Setup(integrations, reactImport).effects <==> integrations.Some? && ReactBeforeSelf(integrations.value)
  {
    if integrations.Some? {
      var xs := integrations.value;
      var selfIndex := FindIndex(xs, SelfName);
      var reactIndex := FindIndex(xs, ReactName);
      if selfIndex != -1 && reactIndex != -1 && reactIndex < selfIndex {
        assert SelfName !in xs[..reactIndex] by {
          assert xs[..reactIndex] == xs[..selfIndex][..reactIndex];
        }
      }
      if ReactBeforeSelf(xs) {
        var i :| 0 <= i < |xs| && xs[i] == ReactName && SelfName !in xs[..i];
        assert reactIndex <= i;
        assert i < selfIndex;
      }
    }
  }

  /**
   * A missing @astrojs/react that cannot be imported logs the error and stops:
   * no renderer, no saved configuration, no Vite update.
   */
  lemma FailedImportStops(integrations: Option<seq<string>>)
    requires !HasReact(integrations)
    ensures var o := Setup(integrations, false);
      && !o.completed && LogError in o.effects
      && forall i :: 0 <= i < |o.effects| ==> !o.effects[i].AddRenderer? && !o.effects[i].SetSsrExternal?
  {
  }

  /** The hook runs to the end exactly when @astrojs/react is listed or can be imported; the error is logged otherwise. */
  lemma CompletesIff(integrations: Option<seq<string>>, reactImport: bool)
    ensures var o := Setup(integrations, reactImport);
      && (o.completed <==> HasReact(integrations) || reactImport)
      && (LogError in o.effects <==> !o.completed)
  {
  }

  /**
   * Exactly one integration update happens when @astrojs/react had to be
   * imported, it adds @astrojs/react alone, and it comes before the renderer.
   */
  lemma ImportedReactAddedOnce(integrations: Option<seq<string>>, reactImport: bool)
    ensures var e := Setup(integrations, reactImport).effects;
      && ((exists i :: 0 <= i < |e| && e[i].AddIntegrations?) <==> !HasReact(integrations) && reactImport)
      && (forall i :: 0 <= i < |e| && e[i].AddIntegrations? ==> e[i].names == [ReactName])
      && (forall i, j :: 0 <= i < |e| && 0 <= j < |e| && e[i].AddIntegrations? && e[j].AddIntegrations? ==> i == j)
      && (forall i, j :: 0 <= i < |e| && 0 <= j < |e| && e[i].AddIntegrations? && e[j].AddRenderer? ==> i < j)
  {
    var e := Setup(integrations, reactImport).effects;
    if !HasReact(integrations) && reactImport {
      assert e[1].AddIntegrations?;
    }
  }

  /**
   * A completed run registers the fixed renderer once and then sets the SSR
   * externals to the two Emotion packages, as its last two effects.
   */
  lemma CompletedRegistersRenderer(integrations: Option<seq<string>>, reactImport: bool)
    ensures var o := Setup(integrations, reactImport);
      o.completed ==>
        && |o.effects| >= 2
        && o.effects[|o.effects| - 2] == AddRenderer(SelfRenderer)
        && o.effects[|o.effects| - 1] == SetSsrExternal(["@emotion/css", "@emotion/server"])
        && forall i :: 0 <= i < |o.effects| - 2 ==> !o.effects[i].AddRenderer? && !o.effects[i].SetSsrExternal?
  {
  }

  /**
   * The render module names itself "ssr-emotion", while the renderer the hook
   * registers with Astro is named "ssr-emotion-react".
   */
  lemma RendererNamesDiffer()
    ensures AstroRender.RendererName == "ssr-emotion" && SelfRenderer.name == "ssr-emotion-react"
    ensures AstroRender.RendererName != SelfRenderer.name
  {
  }

  /** The integration instance: the closure variable `saveConfig` (None for null). */
  class EmotionIntegration {
    var saveConfig: Option<Config>

    /** `let saveConfig = null` */
    constructor ()
      ensures saveConfig == None
    {
      saveConfig := None;
    }

    /**
     * The `astro:config:setup` hook: returns its effects in order and keeps
     * the configuration when it runs to the end.
     */
    method ConfigSetup(config: Config, reactImport: bool) returns (effects: seq<Effect>)
      modifies this
      ensures effects == Setup(config.integrations, reactImport).effects
      ensures saveConfig == if Setup(config.integrations, reactImport).completed then Some(config) else old(saveConfig)
    {
      effects := [];
      var reactIntegration := HasReact(config.integrations);
      if !reactIntegration {
        effects := effects + [ImportReact];
        if !reactImport {
          effects := effects + [LogError];
          return;
        }
        effects := effects + [AddIntegrations([ReactName])];
      } else {
        var selfIndex := FindIndex(config.integrations.value, SelfName);
        var reactIndex := FindIndex(config.integrations.value, ReactName);
        if selfIndex != -1 && reactIndex != -1 && reactIndex < selfIndex {
          effects := effects + [LogWarn];
        }
      }
      effects := effects + [AddRenderer(SelfRenderer)];
      saveConfig := Some(config);
      effects := effects + [SetSsrExternal(SsrExternals)];
    }

    /** The `astro:build:done` hook: the pass, run with whatever `saveConfig` holds. */
    method BuildDoneHook(host: Host, outDir: string, pages: seq<Page>, dom: DomLibrary, entropy: seq<Bytes4>)
      returns (r: Result<nat, BuildError>)
      requires |entropy| == |pages|
      modifies host
      ensures saveConfig.None? ==> r == Failure(NullConfig) && host.files == old(host.files) && host.console == old(host.console)
      ensures saveConfig.Some? ==>
        var final := Finish(RunPages(EnvOf(outDir, saveConfig.value, dom), State(old(host.files), old(host.console), 0), pages, entropy));
        r == Success(final.count) && host.files == final.files && host.console == final.console
    {
      r := BuildDone(host, outDir, pages, saveConfig, dom, entropy);
    }
  }

  /**
   * The style element the renderer emits is a <style> tag, but it carries
   * data-emotion, not the data-ssr-emotion the pass selects.
   */
  lemma RenderedStyleIsNotMarker(ids: seq<string>, css: string)
    ensures AstroRender.StyleElement(ids, css).tag == MarkerTag
    ensures !IsMarker(AstroRender.StyleElement(ids, css))
  {
    AstroRender.StyleElementAttributes(ids, css);
  }

  /** An element the renderer emits as its style tag. */
  ghost predicate FromRenderer(e: Element) {
    exists ids: seq<string>, css: string :: e == AstroRender.StyleElement(ids, css)
  }

  /** Every <style> element of the page's body came from the renderer. */
  ghost predicate OnlyRenderedStyles(dom: DomLibrary, content: string) {
    var body := dom.parse(content).body;
    forall i :: 0 <= i < |body| && body[i].tag == MarkerTag ==> FromRenderer(body[i])
  }

  /** Such a page has nothing the pass would move. */
  lemma RenderedPageHasNoCss(env: Env, files: map<string, string>, htmlPath: string)
    requires htmlPath in files && OnlyRenderedStyles(env.dom, files[htmlPath])
    ensures PageCss(env, files, htmlPath) == ""
  {
    var body := env.dom.parse(files[htmlPath]).body;
    forall i | 0 <= i < |body|
      ensures !IsMarker(body[i])
    {
      if body[i].tag == MarkerTag {
        var ids, css :| body[i] == AstroRender.StyleElement(ids, css);
        RenderedStyleIsNotMarker(ids, css);
      }
    }
    NoMarkers(body);
  }

  /**
   * The pass leaves a build untouched when every <style> under the body of
   * every page file it resolves is the renderer's own: no stylesheet, no
   * rewrite, no log line, the count as it was.
   */
  lemma {:induction false} RenderedStylesAreNeverMoved(env: Env, st: State, pages: seq<Page>, entropy: seq<Bytes4>)
    requires |entropy| == |pages|
    requires forall k :: 0 <= k < |pages| ==>
      var htmlPath := PageFile(st.files, env.outDir, pages[k].pathname);
      htmlPath.Some? ==> OnlyRenderedStyles(env.dom, st.files[htmlPath.value])
    ensures RunPages(env, st, pages, entropy) == st
  {
    if pages != [] {
      var n := |pages| - 1;
      assert forall k :: 0 <= k < n ==> pages[..n][k] == pages[k];
      RenderedStylesAreNeverMoved(env, st, pages[..n], entropy[..n]);
      var htmlPath := PageFile(st.files, env.outDir, pages[n].pathname);
      if htmlPath.Some? {
        RenderedPageHasNoCss(env, st.files, htmlPath.value);
      }
    }
  }
}
