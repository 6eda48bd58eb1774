# Visual intersection observer — a verified model

`VisualIntersectionObserver` is a drop-in replacement for the browser's
`IntersectionObserver`. It accepts the visual viewport (the pinch-zoomed,
panned part of the page the user actually sees) as its `root`. The native
observer only measures against the layout viewport. So the proxy translates
the caller's `rootMargin` from visual-viewport terms into a pixel margin
around the layout viewport. On every resize or scroll of the visual viewport
it rebuilds the native observer with a freshly translated margin.

The model has two modules:

- `MarginTransform` (margin_transform.dfy) holds the pure margin maths.
  It covers the CSS margin shorthand (`margin` in CSS Box Model Module
  Level 3, section 3.2) and the resolution of `px` and `%` tokens, with
  percentages on right/left taken of the width and on top/bottom of the
  height. It also covers the outward expansion of a rectangle and the
  re-expression of the expanded visual viewport as four signed edge
  distances from the layout viewport. The central result is `RoundTrip`:
  growing the layout viewport by the translated pixel margin gives exactly
  the visual viewport grown by the requested margin.
- `Proxy` (proxy.dfy) holds the stateful proxy. `VisualObserver` is a class
  with the proxy's fields: the caller's options, the live native observer,
  the target set, and the batches it has handed to the callback. `Observer`
  is a small class standing in for the native `IntersectionObserver`. It
  has its configuration, its observed set, its queue of pending records and
  a disconnected flag, plus a ghost log of the calls made on it.
  `VisualObserver.Valid()` says that the live observer
  watches exactly the proxy's targets. It also says that the observer was
  configured from the caller's original options against the last geometry.

Numbers are `real`. Margin tokens arrive already split on whitespace and
parsed. Each is `Px(v)`, `Pct(v)`, or `Other`, the last for any piece that
ends in neither `px` nor `%`. The DOM reads are a `Geometry` value passed
in: the visual viewport's offset and size, and the client sizes of the
document element and the body. The body is used when the document element
reports zero.

Where descriptions of the library and its code differ, the model follows
the code:

- A bare `0` token is rejected, like any token without `px` or `%`.
- Three-token margins are accepted and expanded as in CSS.
- The translated top and left distances are `rootRect.top - top` and
  `rootRect.left - left`. A visual viewport scrolled to (50, 50) with a
  zero margin therefore gives -50 for top and left, not +50.
- The rebuild runs directly when the viewport changes. There is no idle
  deferral.
- Every rebuild re-parses the caller's original margin rather than a
  pre-parsed copy.

## Model

| member | source | states |
|---|---|---|
| MarginTransform.VisualRect | src/main.ts:24-33 | the visual viewport rectangle sits at the viewport offset with the viewport's size, and its width and height agree with its edges |
| MarginTransform.RootRect | src/main.ts:10-22 | the layout viewport rectangle is anchored at the origin and sized by the document element's client box, or the body's when that is zero |
| MarginTransform.ParseMargins | src/main.ts:35-51 | always four tokens; supplied slots among the first four keep their place; a missing right or bottom copies top, and a missing left copies right |
| MarginTransform.ShorthandForms | src/main.ts:36-50 | `[a]` gives `[a,a,a,a]`, `[a,b]` gives `[a,b,a,b]`, `[a,b,c]` gives `[a,b,c,b]`; four or more tokens give the first four |
| MarginTransform.ParseMarginsIdempotent | src/main.ts:35-50 | a margin already filled out to four tokens passes through the shorthand unchanged (the fact `RoundTrip` uses when the translated margin is expanded) |
| MarginTransform.Resolve | src/main.ts:54-64 | a token fails to resolve exactly when it has neither `px` nor `%` |
| MarginTransform.ResolveByAxis | src/main.ts:55-61 | percentages at right and left scale by the width, at top and bottom by the height; pixel tokens resolve to their own value |
| MarginTransform.ResolveAll | src/main.ts:54-64 | resolving the token list succeeds exactly when no token lacks a unit, and then yields each token's delta at its own position |
| MarginTransform.ExpandRect | src/main.ts:53-78 | succeeds exactly when the filled-out margin has units everywhere; the result moves top and left out by the first and last deltas, right and bottom by the second and third, and keeps width and height consistent with its edges |
| MarginTransform.UnitlessTokenFails | src/main.ts:55-63 | a unitless token in any of the first four positions (a bare `0`, an empty piece, `em`) makes the expansion throw |
| MarginTransform.ExtraTokensIgnored | src/main.ts:36 | tokens after the fourth do not affect the expansion |
| MarginTransform.ExpandByZero | src/main.ts:66-75 | an all-zero margin leaves every edge in place, and a well-formed rectangle comes back unchanged |
| MarginTransform.ExpandContains | src/main.ts:66-75 | non-negative deltas give a rectangle containing the input, at least as wide and as tall |
| MarginTransform.ParseRootMargin | src/main.ts:80-92 | the translation succeeds exactly when the request has units everywhere, and yields four pixel tokens |
| MarginTransform.RoundTrip | src/main.ts:66-89 | growing the layout viewport by the translated pixel margin reproduces the visual viewport grown by the requested margin, edge for edge; the translation fails exactly when the expansion does |
| MarginTransform.ErrorIndependentOfGeometry | src/main.ts:53-64 | whether the translation fails depends on the tokens only, never on the viewport geometry |
| MarginTransform.ZeroMarginOffsets | src/main.ts:80-92 | a zero pixel margin translates to `[-offsetTop, offsetLeft+width-rootWidth, offsetTop+height-rootHeight, -offsetLeft]` |
| MarginTransform.IdentityViewport | src/main.ts:84-89 | when the visual viewport equals the root, a zero margin translates to four zero pixel tokens |
| Proxy.ObserverConfig | src/main.ts:118-129 | the native options are the caller's options unchanged unless the root is the visual viewport; in that case the root is dropped and the margin replaced by a translation satisfying the round trip; thresholds always pass through; fails exactly when the proxy's own translation rejects the margin |
| Proxy.WrittenDefaultAlwaysFails | src/main.ts:121-124 | the fallback margin `'0'` is rejected on every geometry |
| Proxy.DefaultMarginTranslates | src/main.ts:121-124 | with a zero pixel fallback, a visual viewport root without a rootMargin is accepted and translates to the viewport's edge distances |
| Proxy.ConfigErrorIndependentOfGeometry | src/main.ts:118-129 | options accepted on one geometry are accepted on every geometry, so a proxy that could be built can always be rebuilt |
| Proxy.VisualObserver.CreateObserver | src/main.ts:118-129 | a fresh native observer, configured from the caller's options against the given geometry, observing nothing, with no pending records |
| Proxy.VisualObserver.constructor | src/main.ts:108-116 | the proxy starts with no targets and a fresh live observer configured against the current geometry |
| Proxy.VisualObserver.Create | src/main.ts:108-116 | construction throws exactly when the proxy's own translation rejects the margin; otherwise it yields a valid proxy with no targets, configured against the given geometry, whose fresh live observer is connected with nothing pending |
| Proxy.VisualObserver.UpdateViewport | src/main.ts:131-136 | hands the old observer's pending records to the callback and then disconnects it: the old observer's call log gains exactly `takeRecords` followed by `disconnect`, and it ends with nothing observed and nothing pending. It installs a fresh observer configured against the new geometry that observes exactly the unchanged target set and has received only `observe` calls for targets |
| Proxy.VisualObserver.Root | src/main.ts:138-140 | the root getter is never the visual viewport: it is the implicit root when the caller asked for the visual viewport, else the caller's root |
| Proxy.VisualObserver.RootMargin | src/main.ts:142-144 | the rootMargin getter is the latest four-pixel translation (satisfying the round trip) for a visual viewport root, else the caller's margin |
| Proxy.VisualObserver.Thresholds | src/main.ts:146-148 | the thresholds getter gives the caller's thresholds |
| Proxy.VisualObserver.Disconnect | src/main.ts:150-154 | the target set is emptied and the live observer is disconnected, its pending records kept |
| Proxy.VisualObserver.Observe | src/main.ts:156-159 | the target joins the target set and the live observer, idempotently; the live observer is connected afterwards |
| Proxy.VisualObserver.TakeRecords | src/main.ts:161-163 | returns the live observer's pending records and empties its queue; targets and observed set unchanged |
| Proxy.VisualObserver.Unobserve | src/main.ts:165-168 | the target leaves the target set and the live observer |
| Proxy.UnobserveThenResync | src/main.ts:131-168 | a target removed by `unobserve` is not re-registered by any number of later viewport updates |

## Left out

- DOM reads (`clientWidth`/`clientHeight`, `window.visualViewport`) are the `Geometry` parameter. The `||` fallback is kept only for zero; `undefined` and `NaN` are not modelled.
- `parseFloat` and the `${margin}px` formatting: tokens are parsed values, and the translated margin is four `Px` tokens. The native observer's own normalisation of the rootMargin string is not modelled.
- Floating-point rounding: numbers are exact reals.
- The native constructor's own validation is not modelled, so `Observer`'s constructor never fails. The native constructor rejects a rootMargin token without `px` or `%` under a root that is not the visual viewport, and thresholds outside [0, 1].
- Intersection computation and the native observer's own asynchronous callback calls are not modelled. Records simply sit in `Observer.pending`. `delivered` logs only the batches the proxy itself passes to the callback.
- Event listeners (registration, and the fact that `disconnect` never removes them) are left out. `UpdateViewport` is a method the caller invokes.
- Re-entrancy is not modelled: a callback that calls back into the proxy during `UpdateViewport`.
- The TypeScript mapped options type and the `instanceof VisualViewport` test become the `VisualViewportRoot` case of `ObserverRoot`. A missing options object is the init with every field absent. Threshold normalisation by the native observer is not modelled.
- The options are an immutable value (`VisualObserver.init`) fixed at construction. The source keeps the caller's options object by reference (src/main.ts:110) and copies it only at each rebuild (src/main.ts:119), so a caller who mutates that object later changes the next rebuild. That aliasing is not modelled.
- Proxy.VisualObserver.UpdateViewport: does not model the throw of a rebuild at src/main.ts:134, because `ConfigErrorIndependentOfGeometry` shows a rebuild cannot fail while the caller's options object is unchanged. If a mutated options object made it throw, the source would already have delivered the records and disconnected the old observer, leaving that disconnected observer live with no target re-registered.
- The join with `' '` at src/main.ts:50 and the `split(' ')` at src/main.ts:54 are taken as the identity on tokens. They cancel because pieces from `split(/\s+/)` contain no whitespace, which the `Token` abstraction assumes.
- Proxy.ObserverConfig: uses a zero-pixel fallback margin instead of the unitless `'0'` written at src/main.ts:123; see Findings.

## Findings

| source | as written | input that shows it | evidently intended | confidence | as-written member | corrected member |
|---|---|---|---|---|---|---|
| src/main.ts:121-124 | with a visual viewport root and no rootMargin, the fallback margin is the string `'0'`. It has no `px` or `%` unit, so the margin parser throws and the observer can never be built | options `{ root: window.visualViewport }` with no `rootMargin`, on any geometry | fall back to a zero margin, so the native root coincides with the visual viewport | high; not executed | Proxy.WrittenDefaultAlwaysFails | Proxy.DefaultMarginTranslates |
