# ssr-emotion-react in Dafny

A model of the server side of `ssr-emotion-react`, an Astro integration that
renders React components with Emotion styles. It covers three parts.

- **Renderer** (`astro_render.dfy`). It decides which components it handles
  (`check`). It wraps the default slot in a `display: contents` div. It puts a
  `<style data-emotion="css …">` tag holding Emotion's critical CSS in front of
  the rendered markup (`renderToStaticMarkup`).
- **Integration** (`astro_integration.dfy`). The `astro:config:setup` hook
  makes sure `@astrojs/react` is configured, importing it when it is missing.
  It warns when `@astrojs/react` is listed before this integration. It
  registers the renderer, keeps the configuration in the closure variable
  `saveConfig` and marks the Emotion packages as SSR externals. The
  `astro:build:done` hook runs the pass below with whatever `saveConfig`
  holds.
- **Post-build pass** (`astro_build_done.dfy`). For every built page it:
  - finds the page file (`<out>/<route>/index.html`, else `<out>/<route>.html`);
  - collects the `<style data-ssr-emotion>` elements under `<body>`;
  - joins their texts with newlines and trims the result;
  - writes the result to `<out>/<assetsDir>/ssremo.<8 hex digits>.css`;
  - removes the markers and appends `<link rel="stylesheet">` to `<head>`;
  - rewrites the page with a `<!DOCTYPE html>` prefix, logs one line and counts the page.

  After all pages it logs a blank line when at least one page was rewritten.

The model has these abstractions:

- The file system is a map from path to content.
- The console is a sequence of lines.
- The DOM library is a parse/serialise pair of functions.
- React's `renderToString` and Emotion's `extractCritical` are functions passed in.
- The 4 random bytes are an input: one 4-byte value per page, used only when the page is rewritten.
- The `Host` class holds the file system and the console. `BuildDone` is the
  page loop as a method over it, proved against the functional specification
  `RunPages`/`PageStep`.
- The `EmotionIntegration` class holds `saveConfig`.

`wrappers.dfy`, `text.dfy`, `js.dfy`, `dom.dfy` and `config.dfy` hold the
building blocks:

- `Option`/`Result`;
- JavaScript's `trim`, `join` and `split`, hex rendering and substring search;
- JavaScript values with truthiness;
- the abstract document;
- the configuration fields read.

Choices the code makes that a reader might not expect:

- The stylesheet id is 4 random bytes as lower-case hex. It does not depend on
  the CSS, so each build writes new file names, and two pages with the same
  CSS get two files.
- The link href is the raw `${base}/${fileName}`, so base `/docs/` gives
  `/docs//_astro/…`.
- `base` is also empty when `config.base` is the empty string, because the code
  returns `config.base` unchanged unless it is `"/"`.

The renderer marks its style tag with `data-emotion`, while the pass selects
`style[data-ssr-emotion]`. So the pass never moves a style tag the renderer
wrote. `RenderedStyleIsNotMarker` and `RenderedStylesAreNeverMoved` state this.
The render module's own name is `ssr-emotion`, while the renderer the
integration registers is named `ssr-emotion-react`; `RendererNamesDiffer`
states this.

Some definitions carry no contract of their own: what they compute is stated
by the lemmas about them. Their rows say which.

## Model

| member | source | states |
|---|---|---|
| Text.Trim | src/astro-build-done.js:35 | the result is the input with only leading and trailing JavaScript whitespace removed; it neither starts nor ends with whitespace; it is empty exactly when the input is all whitespace |
| Text.UnhexHex | src/astro-build-done.js:39 | the hex rendering of random bytes loses nothing: reading the digits back gives the bytes |
| Text.HexInjective | src/astro-build-done.js:39 | different random bytes give different hex ids |
| Text.Join | src/astro-build-done.js:34 | no contract of its own (`Array.prototype.join`); `Text.JoinAllWhitespace` states that a join with a whitespace separator is all whitespace exactly when every part is, and `Text.SplitJoin` that splitting a join of at least one part gives the parts back when no part contains the one-character separator |
| Text.Hex | src/astro-build-done.js:39 | the rendering has two lower-case hex digits per byte; `Text.UnhexHex` and `Text.HexInjective` state that it loses nothing |
| AstroBuildDone.AssetsDir | src/astro-build-done.js:11 | the assets directory is never empty; it is `build.assets` when that is a non-empty string, and `_astro` otherwise |
| AstroBuildDone.Base | src/astro-build-done.js:12 | the base is empty exactly when `config.base` is `/` or empty, and otherwise it is `config.base` unchanged |
| AstroBuildDone.JoinPath | src/astro-build-done.js:41 | no contract of its own (`path.join` of two segments, skipping an empty one); `AstroBuildDone.StylesheetPathShape` states the paths it builds |
| AstroBuildDone.IndexHtmlPath | src/astro-build-done.js:16 | no contract of its own; `AstroBuildDone.PageFile` states that this candidate is preferred and ends in `.html` |
| AstroBuildDone.FallbackHtmlPath | src/astro-build-done.js:18 | no contract of its own; `AstroBuildDone.PageFile` states that this candidate comes second and ends in `.html` |
| AstroBuildDone.PageFile | src/astro-build-done.js:16-21 | `<out>/<route>/index.html` is chosen when it exists, else `<out>/<route>.html` when that exists, else no file; the chosen file exists and ends in `.html` |
| AstroBuildDone.Markers | src/astro-build-done.js:28 | every selected element is a `style` with `data-ssr-emotion`, and every such element of the body is selected |
| AstroBuildDone.WithoutMarkers | src/astro-build-done.js:48 | after removal no marker is left and every other element is kept |
| AstroBuildDone.MarkersPartition | src/astro-build-done.js:48 | the selected markers and the remaining elements together are exactly the body's elements |
| AstroBuildDone.MarkersAppend | src/astro-build-done.js:28 | selection and removal keep document order: over a concatenated body they give the concatenation of the parts' results |
| AstroBuildDone.CombinedCss | src/astro-build-done.js:32-35 | no contract of its own (map to text, join with a newline, trim); `AstroBuildDone.CombinedCssEmpty` and `AstroBuildDone.TwoMarkersSelection` state what it yields, and `Text.Trim` what the trim keeps |
| AstroBuildDone.PageCss | src/astro-build-done.js:28-37 | no contract of its own (empty without markers, else the merged CSS); `AstroBuildDone.PageStepEffect` states that a page is rewritten exactly when it is not empty |
| AstroBuildDone.CombinedCssEmpty | src/astro-build-done.js:32-37 | the merged CSS is empty exactly when every marker's text is whitespace only |
| AstroBuildDone.Rewrite | src/astro-build-done.js:48-53 | the head keeps its nodes and gains the stylesheet link as its last node; the body has no marker left and its other elements are unchanged |
| AstroBuildDone.StylesheetName | src/astro-build-done.js:40 | no contract of its own; `AstroBuildDone.StylesheetPathShape` and `AstroBuildDone.DistinctEntropyDistinctFiles` state the shape and uniqueness of the path built from it |
| AstroBuildDone.Href | src/astro-build-done.js:52 | no contract of its own; `AstroBuildDone.HrefKeepsDoubledSeparator` states that separators are not collapsed, and `AstroBuildDone.RewrittenPageHasNoCss` that the page links this href |
| AstroBuildDone.StylesheetPathShape | src/astro-build-done.js:39-41 | the written path is `<out>/<assetsDir>/ssremo.` followed by 8 lower-case hex digits and `.css` |
| AstroBuildDone.DistinctEntropyDistinctFiles | src/astro-build-done.js:39-41 | pages given different random bytes write different stylesheet files |
| AstroBuildDone.HrefKeepsDoubledSeparator | src/astro-build-done.js:52 | a base ending in `/` yields `//` in the href: separators are not collapsed |
| AstroBuildDone.PageStep | src/astro-build-done.js:15-58 | no contract of its own (one iteration of the loop); `AstroBuildDone.PageStepEffect` states its whole effect and `AstroBuildDone.PageStepIdempotent` that repeating it changes nothing |
| AstroBuildDone.RewritePage | src/astro-build-done.js:39-58 | no contract of its own (the writes, log line and count of a rewritten page); `AstroBuildDone.PageStepEffect` and `AstroBuildDone.RewrittenPageHasNoCss` state them |
| AstroBuildDone.PageStepEffect | src/astro-build-done.js:15-58 | a page without a file, without markers or with empty merged CSS changes nothing; otherwise the stylesheet with the merged CSS is added, the page file becomes the doctype followed by the serialised document with the markers removed and a link to `base + "/" + fileName` appended to the head (the stylesheet is written at `<out>/<fileName>`), one log line is added, the count grows by one, and no other file changes |
| AstroBuildDone.RunPages | src/astro-build-done.js:15 | no contract of its own (the loop over the pages, in order); `AstroBuildDone.RunCounts` and `AstroBuildDone.RunWrites` state what a run does, and `AstroBuildDone.BuildDone` is proved equal to it |
| AstroBuildDone.Finish | src/astro-build-done.js:61 | no contract of its own; `AstroBuildDone.BlankLineIffCount` states that, from a zero count, the lines the run appends end with a blank line exactly when the count is positive |
| AstroBuildDone.RunCounts | src/astro-build-done.js:55-56 | over a run the count grows by at most one per page, and the console gains exactly one `[SSR Emotion]` line per counted page, after the lines it had |
| AstroBuildDone.RunWrites | src/astro-build-done.js:41-58 | a run deletes no file; every new file is a stylesheet path; every changed file is a stylesheet or a page file that now starts with the doctype |
| AstroBuildDone.BlankLineIffCount | src/astro-build-done.js:61 | from a zero count, the lines the run appends end with a blank line exactly when the count is positive |
| AstroBuildDone.RewriteKeepsPageFile | src/astro-build-done.js:16-21 | writing the stylesheet does not change which page file a route resolves to |
| AstroBuildDone.RewrittenPageHasNoCss | src/astro-build-done.js:48-58 | with a DOM library that reads back what it wrote, the rewritten page reads back as the rewritten document: no marker left, the head ending with the link to the stylesheet just written, and no CSS left to move |
| AstroBuildDone.PageStepIdempotent | src/astro-build-done.js:15-58 | with such a DOM library, running the pass again over a page it rewrote changes nothing |
| AstroBuildDone.TwoMarkersSelection | src/astro-build-done.js:28-37 | two markers whose texts are not padded by whitespace are both selected, both removed, and merged as the first text, a newline, then the second |
| AstroBuildDone.TwoMarkersRewrite | src/astro-build-done.js:39-58 | for such a page under an empty base, the stylesheet holds the two texts joined by a newline, the page's head ends in the link `/<assetsDir>/ssremo.<id>.css`, its body loses both markers, and `[SSR Emotion] /<assetsDir>/ssremo.<id>.css` is logged |
| AstroBuildDone.TwoMarkersPage | src/astro-build-done.js:9-58 | the same for a route whose page file holds the two markers under `config.base` `/`, from the configuration to the files, console and count |
| AstroBuildDone.Host.ExistsSync | src/astro-build-done.js:17-19 | the answer is whether the path is in the file system |
| AstroBuildDone.Host.ReadFileSync | src/astro-build-done.js:23 | the content read is the file's content |
| AstroBuildDone.Host.WriteFileSync | src/astro-build-done.js:46 | the path now holds the content; nothing else changes |
| AstroBuildDone.Host.Log | src/astro-build-done.js:55 | the line is appended to the console; the files do not change |
| AstroBuildDone.BuildDone | src/astro-build-done.js:9-61 | a null configuration fails before any write; otherwise the files, console and count are those of the page-by-page specification followed by the final blank line |
| AstroRender.Check | src/astro-render.js:9-11 | the result is truthy exactly for a function component or an object whose `$$typeof` is truthy; a falsy component is returned as it is |
| AstroRender.Children | src/astro-render.js:13-18 | a child exists exactly when `slots?.default` is truthy; it is a `div` with `display: contents` whose inner HTML is the default slot |
| AstroRender.StyleTag | src/astro-render.js:23 | no contract of its own; `AstroRender.ParseStyleTag` states that it reads back as its ids and CSS when the ids are plain and the CSS holds no `</style>`, and `AstroRender.StyleTagIsElement` that it is the outer HTML of a `data-emotion` style element |
| AstroRender.RenderToStaticMarkup | src/astro-render.js:20-27 | the html is the outer HTML of the `data-emotion` style element for the critical ids and CSS, followed by the rendered markup; so it starts with the style tag's opening and ends with the markup |
| AstroRender.ParseStyleTag | src/astro-render.js:23 | when the ids are non-empty with no space or quote and the CSS holds no `</style>`, the style tag followed by any markup reads back as the ids, the CSS verbatim and that markup |
| AstroRender.RenderedParses | src/astro-render.js:20-26 | the renderer's html reads back as the critical ids and CSS for the rendered markup, followed by that markup |
| AstroRender.StyleElementAttributes | src/astro-render.js:23 | the emitted style element carries `data-emotion` and no other attribute |
| AstroRender.StyleTagIsElement | src/astro-render.js:23 | the emitted style tag is the outer HTML of that element |
| AstroIntegration.Setup | src/astro-integration.js:12-50 | no contract of its own (the hook's decisions over the integration names and the import outcome); the lemmas below state its properties and `AstroIntegration.EmotionIntegration.ConfigSetup` performs it |
| AstroIntegration.FindIndex | src/astro-integration.js:28 | the result is -1 exactly when the name is absent, and otherwise the first index holding it |
| AstroIntegration.PresentReactIsKept | src/astro-integration.js:13-17 | with `@astrojs/react` listed, nothing is imported, no integration is added and the hook runs to the end |
| AstroIntegration.WarnIffReactFirst | src/astro-integration.js:28-32 | the warning is logged exactly when both names are listed and `@astrojs/react` comes before this integration |
| AstroIntegration.FailedImportStops | src/astro-integration.js:23-26 | a missing `@astrojs/react` that cannot be imported logs the error and stops before the renderer and the Vite update |
| AstroIntegration.CompletesIff | src/astro-integration.js:17-41 | the hook runs to the end exactly when `@astrojs/react` is listed or can be imported, and the error is logged exactly when it does not |
| AstroIntegration.ImportedReactAddedOnce | src/astro-integration.js:19-22 | an integration update happens exactly when `@astrojs/react` had to be imported; it happens once, adds `@astrojs/react` alone, and comes before the renderer |
| AstroIntegration.CompletedRegistersRenderer | src/astro-integration.js:35-49 | a completed run ends by registering the fixed renderer and then setting the SSR externals to `@emotion/css` and `@emotion/server`, and does neither earlier |
| AstroIntegration.RendererNamesDiffer | src/astro-integration.js:36 | the renderer registered is named `ssr-emotion-react`, while the render module calls itself `ssr-emotion` |
| AstroIntegration.EmotionIntegration.constructor | src/astro-integration.js:7 | `saveConfig` starts out null |
| AstroIntegration.EmotionIntegration.ConfigSetup | src/astro-integration.js:12-50 | the hook performs the effects of the setup decision in order, and saves the configuration exactly when it runs to the end |
| AstroIntegration.EmotionIntegration.BuildDoneHook | src/astro-integration.js:52 | the pass runs with whatever `saveConfig` holds: it fails before any write when setup returned early, and otherwise rewrites with the saved configuration |
| AstroIntegration.RenderedStyleIsNotMarker | src/astro-render.js:23 | the renderer's style element is a `style` tag but not one the pass selects |
| AstroIntegration.RenderedPageHasNoCss | src/astro-build-done.js:28-30 | a page whose only `style` elements under body come from the renderer has no CSS to move |
| AstroIntegration.RenderedStylesAreNeverMoved | src/astro-build-done.js:15-58 | a build whose every `style` under the body of every page file the pass resolves comes from the renderer is left unchanged by the pass: no file, no log line, count unchanged |

## Left out

- Directory creation (`mkdirSync` for the stylesheet's parent) is not modelled: the file system has files only.
- `path.join` normalisation and `fileURLToPath` are not modelled: paths are joined with one `/`, and an empty segment is skipped; the output directory is a string.
- The DOM library (happy-dom's `document.write`, `querySelectorAll`, `remove`, `appendChild` and `outerHTML`) is a parse/serialise pair of functions. A document is flattened to the children of `<head>` and the elements under `<body>` in document order, each with its text content. Nested markup inside body elements is not modelled.
- AstroBuildDone.PageStepIdempotent: holds only for a DOM library that parses back what it serialised behind the doctype, a property the model cannot check of happy-dom.
- The logged href is the href as built. The DOM library may resolve `link.href` to another form, and that is not modelled.
- `crypto.randomBytes` is an input: one 4-byte value per page, used only when the page is rewritten.
- AstroBuildDone.BuildDone: returns the count of rewritten pages, which the source computes but does not return; a null configuration is the error result `NullConfig` where the source throws a TypeError on `config.build`.
- JavaScript strings are UTF-16 code units; the model's characters are Unicode scalar values.
- JavaScript numbers are limited to integers and NaN, as only their truthiness is read.
- `React.createElement`, `renderToString` and `extractCritical` are not opened up. The renderer's promise is modelled as its resolved value.
- AstroRender.ParseStyleTag: holds only for ids that are non-empty and contain no space or quote, and CSS that contains no `</style>`; `StyleTag(["a b"], css)` reads back as the ids `["a", "b"]`.
- AstroRender.RenderedParses: holds only for ids that are non-empty and contain no space or quote, and CSS that contains no `</style>`. For other inputs the style tag cannot be read back unambiguously.
- `saveConfig` holds a snapshot of the configuration value, where the source keeps a reference to the `config` object and reads `base` and `build.assets` from it only when the build-done hook runs; later changes to that object are not modelled.
- The dynamic `import('@astrojs/react')`, the call `react()` and the first `updateConfig` are one flag: the `try` block succeeds or fails as a whole.
- Astro's merging of `updateConfig` arguments and the text of the logger's error and warning messages are not modelled: the hook's effects are recorded in order.
- src/astro-client.js is not part of this model: the client-side hydration timing around `flushSync` and `queueMicrotask` is browser concurrency.
- scripts/build.mjs and scripts/cleanup.mjs are not part of this model: they hold bundler configuration and directory copying only.
