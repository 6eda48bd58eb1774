/** The margin transform of the visual intersection observer: expanding a
    rectangle by a four-sided CSS-style margin, and re-expressing a margin
    requested against the visual viewport as a pixel margin against the
    layout viewport (the root the native IntersectionObserver measures from).

    Numbers are reals: the source does only additions, subtractions and a
    scaling by a percentage. Tokens arrive already split and parsed; see
    Token. */
module MarginTransform {

  /** One whitespace-separated piece of a rootMargin string, after parsing:
      a pixel length, a percentage, or anything that ends in neither `px`
      nor `%` (a bare `0`, an empty piece left by leading or trailing
      whitespace, `em`, ...). */
  datatype Token = Px(v: real) | Pct(v: real) | Other

  /** A rootMargin string split on runs of whitespace. Splitting a string
      never yields an empty list, so there is always a first token. */
  type Margin = m: seq<Token> | |m| >= 1 witness [Px(0.0)]

  /** The only error of the transform: a token with an unsupported unit
      ('Only px or % is allowed in rootMargin'). */
  datatype Error = UnsupportedUnit

  datatype Result<+T> = Success(value: T) | Failure(error: Error)

  datatype Rect = Rect(top: real, right: real, bottom: real, left: real, width: real, height: real)

  /** A rectangle whose width and height agree with its edges. */
  predicate WellFormed(r: Rect)
  {
    r.width == r.right - r.left && r.height == r.bottom - r.top
  }

  /** The geometry the transform reads from the host on every call: the
      visual viewport's offset and size, and the client sizes of the
      document element and of the body. */
  datatype Geometry = Geometry(
    offsetTop: real, offsetLeft: real, viewportWidth: real, viewportHeight: real,
    htmlClientWidth: real, htmlClientHeight: real, bodyClientWidth: real, bodyClientHeight: real)

  /** The visual viewport as a rectangle in layout coordinates. */
  function VisualRect(g: Geometry): (r: Rect)
    ensures WellFormed(r)
    ensures r.top == g.offsetTop && r.left == g.offsetLeft
    ensures r.width == g.viewportWidth && r.height == g.viewportHeight
  {
    Rect(g.offsetTop, g.offsetLeft + g.viewportWidth, g.offsetTop + g.viewportHeight,
         g.offsetLeft, g.viewportWidth, g.viewportHeight)
  }

  /** `a || b` on client sizes: the body's value stands in when the
      document element reports zero. */
  function ClientSize(html: real, body: real): real
  {
    if html != 0.0 then html else body
  }

  /** The layout viewport: anchored at the origin, sized by the document
      element's client box (or the body's when that is zero). */
  function RootRect(g: Geometry): (r: Rect)
    ensures WellFormed(r)
    ensures r.top == 0.0 && r.left == 0.0
    ensures r.width == (if g.htmlClientWidth != 0.0 then g.htmlClientWidth else g.bodyClientWidth)
    ensures r.height == (if g.htmlClientHeight != 0.0 then g.htmlClientHeight else g.bodyClientHeight)
  {
    var w := ClientSize(g.htmlClientWidth, g.bodyClientWidth);
    var h := ClientSize(g.htmlClientHeight, g.bodyClientHeight);
    Rect(0.0, w, h, 0.0, w, h)
  }

  /** The CSS margin shorthand: one to four tokens filled out to exactly
      [top, right, bottom, left]. Tokens past the fourth are dropped. */
  function ParseMargins(m: Margin): (r: seq<Token>)
    ensures |r| == 4
    // every supplied slot among the first four is kept in place
    ensures forall i :: 0 <= i < |m| && i < 4 ==> r[i] == m[i]
    // a missing right copies top, a missing bottom copies top, a missing left copies right
    ensures |m| < 2 ==> r[1] == r[0]
    ensures |m| < 3 ==> r[2] == r[0]
    ensures |m| < 4 ==> r[3] == r[1]
  {
    var top := m[0];
    var right := if |m| > 1 then m[1] else top;
    var bottom := if |m| > 2 then m[2] else top;
    var left := if |m| > 3 then m[3] else right;
    [top, right, bottom, left]
  }

  /** The four shorthand forms, spelled out. */
  lemma ShorthandForms(a: Token, b: Token, c: Token, d: Token, rest: seq<Token>)
    ensures ParseMargins([a]) == [a, a, a, a]
    ensures ParseMargins([a, b]) == [a, b, a, b]
    ensures ParseMargins([a, b, c]) == [a, b, c, b]
    ensures ParseMargins([a, b, c, d] + rest) == [a, b, c, d]
  {
  }

  /** A margin that is already filled out to four tokens passes through
      the shorthand unchanged. */
  lemma ParseMarginsIdempotent(m: Margin)
    ensures ParseMargins(ParseMargins(m)) == ParseMargins(m)
  {
  }

  /** The extent a percentage at position `index` of [top, right, bottom,
      left] refers to: the width for right and left, the height for top and
      bottom. */
  function Extent(index: nat, rect: Rect): real
  {
    if index % 2 == 1 then rect.width else rect.height
  }

  /** One token resolved to a pixel delta. */
  function Resolve(t: Token, index: nat, rect: Rect): (r: Result<real>)
    ensures r.Failure? <==> t.Other?
  {
    match t
    case Px(v) => Success(v)
    case Pct(v) => Success(v * Extent(index, rect) / 100.0)
    case Other => Failure(UnsupportedUnit)
  }

  /** Percentages on the right and left scale with the width, those on the
      top and bottom with the height; pixel tokens are taken as they are. */
  lemma ResolveByAxis(v: real, rect: Rect)
    ensures Resolve(Pct(v), 1, rect) == Resolve(Pct(v), 3, rect) == Success(v * rect.width / 100.0)
    ensures Resolve(Pct(v), 0, rect) == Resolve(Pct(v), 2, rect) == Success(v * rect.height / 100.0)
    ensures forall i: nat :: Resolve(Px(v), i, rect) == Success(v)
  {
    // the verifier does not unfold Resolve at a literal position by itself
    assert Resolve(Pct(v), 1, rect).value == v * rect.width / 100.0;
    assert Resolve(Pct(v), 3, rect).value == v * rect.width / 100.0;
    assert Resolve(Pct(v), 0, rect).value == v * rect.height / 100.0;
    assert Resolve(Pct(v), 2, rect).value == v * rect.height / 100.0;
  }

  /** Every token resolved at its own position, failing if any token fails
      (the `map` whose callback throws). */
  function ResolveAll(ms: seq<Token>, rect: Rect): (r: Result<seq<real>>)
    ensures r.Success? <==> forall i :: 0 <= i < |ms| ==> !ms[i].Other?
    ensures r.Success? ==>
      |r.value| == |ms| &&
      forall i :: 0 <= i < |ms| ==> Resolve(ms[i], i, rect) == Success(r.value[i])
    decreases |ms|
  {
    if ms == [] then Success([])
    else
      var n := |ms| - 1;
      match ResolveAll(ms[..n], rect)
      case Failure(e) => Failure(e)
      case Success(ds) =>
        match Resolve(ms[n], n, rect)
        case Failure(e) => Failure(e)
        case Success(d) => Success(ds + [d])
  }

  /** True when every token of the filled-out margin has a unit. */
  predicate HasUnits(m: Margin)
  {
    forall i :: 0 <= i < 4 ==> !ParseMargins(m)[i].Other?
  }

  /** The rectangle grown outward by the margin: top and left move out by
      the first and last delta, right and bottom by the second and third;
      width and height are recomputed from the new edges. */
  function ExpandRect(rect: Rect, margin: Margin): (r: Result<Rect>)
    ensures r.Success? <==> HasUnits(margin)
    ensures r.Success? ==> WellFormed(r.value)
    ensures r.Success? ==>
      var d := ResolveAll(ParseMargins(margin), rect).value;
      r.value.top == rect.top - d[0] && r.value.right == rect.right + d[1] &&
      r.value.bottom == rect.bottom + d[2] && r.value.left == rect.left - d[3]
  {
    match ResolveAll(ParseMargins(margin), rect)
    case Failure(e) => Failure(e)
    case Success(d) =>
      var top := rect.top - d[0];
      var right := rect.right + d[1];
      var bottom := rect.bottom + d[2];
      var left := rect.left - d[3];
      Success(Rect(top, right, bottom, left, right - left, bottom - top))
  }

  /** A token without `px` or `%` among the first four makes the expansion
      fail, wherever it stands. */
  lemma UnitlessTokenFails(rect: Rect, margin: Margin, i: nat)
    requires i < |margin| && i < 4 && margin[i].Other?
    ensures ExpandRect(rect, margin) == Failure(UnsupportedUnit)
  {
    assert ParseMargins(margin)[i].Other?;
  }

  /** Tokens after the fourth play no part. */
  lemma ExtraTokensIgnored(rect: Rect, margin: Margin)
    requires |margin| > 4
    ensures ExpandRect(rect, margin) == ExpandRect(rect, margin[..4])
  {
    assert ParseMargins(margin) == ParseMargins(margin[..4]);
  }

  /** A margin of zeros leaves every edge where it was; a well-formed
      rectangle comes back unchanged. */
  lemma ExpandByZero(rect: Rect, margin: Margin)
    requires forall i :: 0 <= i < |margin| ==> margin[i] == Px(0.0) || margin[i] == Pct(0.0)
    ensures ExpandRect(rect, margin).Success?
    ensures var e := ExpandRect(rect, margin).value;
      e.top == rect.top && e.right == rect.right && e.bottom == rect.bottom && e.left == rect.left
    ensures WellFormed(rect) ==> ExpandRect(rect, margin) == Success(rect)
  {
    var p := ParseMargins(margin);
    assert forall i :: 0 <= i < 4 ==> p[i] == Px(0.0) || p[i] == Pct(0.0) by {
      forall i | 0 <= i < 4 ensures p[i] == Px(0.0) || p[i] == Pct(0.0) {
        assert p[i] in margin;
      }
    }
    var d := ResolveAll(p, rect).value;
    forall i | 0 <= i < 4 ensures d[i] == 0.0 {
      assert Resolve(p[i], i, rect) == Success(d[i]);
    }
  }

  /** Non-negative deltas grow the rectangle: the result contains the input. */
  lemma ExpandContains(rect: Rect, margin: Margin)
    requires HasUnits(margin)
    requires forall i :: 0 <= i < 4 ==> ResolveAll(ParseMargins(margin), rect).value[i] >= 0.0
    ensures var e := ExpandRect(rect, margin).value;
      e.top <= rect.top && e.left <= rect.left && rect.right <= e.right && rect.bottom <= e.bottom
    ensures WellFormed(rect) ==>
      var e := ExpandRect(rect, margin).value;
      rect.width <= e.width && rect.height <= e.height
  {
  }

  /** The layout-space margin equivalent to `margin` taken against the
      visual viewport: the signed distance from each edge of the root to the
      matching edge of the expanded visual rectangle, positive outward,
      written as four pixel tokens in [top, right, bottom, left] order. */
  function ParseRootMargin(visual: Rect, root: Rect, margin: Margin): (r: Result<Margin>)
    ensures r.Success? <==> HasUnits(margin)
    ensures r.Success? ==> |r.value| == 4 && forall i :: 0 <= i < 4 ==> r.value[i].Px?
  {
    match ExpandRect(visual, margin)
    case Failure(e) => Failure(e)
    case Success(e) =>
      Success([Px(root.top - e.top), Px(e.right - root.right),
               Px(e.bottom - root.bottom), Px(root.left - e.left)])
  }

  /** The core correctness property: growing the root by the translated
      pixel margin lands exactly on the visual viewport grown by the
      requested margin, and the translation fails exactly when the request
      does. */
  lemma RoundTrip(visual: Rect, root: Rect, margin: Margin)
    ensures ParseRootMargin(visual, root, margin).Failure? <==> ExpandRect(visual, margin).Failure?
    ensures ParseRootMargin(visual, root, margin).Success? ==>
      ExpandRect(root, ParseRootMargin(visual, root, margin).value) == ExpandRect(visual, margin)
  {
    match ParseRootMargin(visual, root, margin)
    case Failure(_) =>
    case Success(px) =>
      var e := ExpandRect(visual, margin).value;
      var d := ResolveAll(ParseMargins(px), root).value;
      assert ParseMargins(px) == px;
      forall i | 0 <= i < 4 ensures d[i] == px[i].v {
        assert Resolve(px[i], i, root) == Success(d[i]);
      }
  }

  /** Whether the translation fails depends on the tokens alone, never on
      the geometry: a margin accepted once is accepted on every later
      viewport change. A corollary of the first ensures of ParseRootMargin,
      whose right-hand side does not mention the rectangles. */
  lemma ErrorIndependentOfGeometry(v1: Rect, r1: Rect, v2: Rect, r2: Rect, margin: Margin)
    ensures ParseRootMargin(v1, r1, margin).Success? == ParseRootMargin(v2, r2, margin).Success?
  {
  }

  /** A zero pixel margin translates to the visual viewport's own distances
      from the root's edges: [-offsetTop, offsetLeft + width - rootWidth,
      offsetTop + height - rootHeight, -offsetLeft]. */
  lemma ZeroMarginOffsets(g: Geometry)
    ensures ParseRootMargin(VisualRect(g), RootRect(g), [Px(0.0)]) ==
      Success([Px(-g.offsetTop),
               Px(g.offsetLeft + g.viewportWidth - RootRect(g).width),
               Px(g.offsetTop + g.viewportHeight - RootRect(g).height),
               Px(-g.offsetLeft)])
  {
    ExpandByZero(VisualRect(g), [Px(0.0)]);
  }

  /** When the visual viewport coincides with the root, a zero margin (in
      pixels or percent) translates to four zero pixel tokens. */
  lemma IdentityViewport(rect: Rect, margin: Margin)
    requires forall i :: 0 <= i < |margin| ==> margin[i] == Px(0.0) || margin[i] == Pct(0.0)
    ensures ParseRootMargin(rect, rect, margin) == Success([Px(0.0), Px(0.0), Px(0.0), Px(0.0)])
  {
    ExpandByZero(rect, margin);
  }
}
