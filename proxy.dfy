/** The visual intersection observer: a stand-in for IntersectionObserver
    that owns one native observer at a time and, whenever the visual
    viewport moves or resizes, replaces it with one whose rootMargin is
    the translation of the caller's margin into layout-viewport pixels. */
module Proxy {
  import opened MarginTransform

  datatype Option<+T> = None | Some(value: T)

  /** The `root` option: absent (the implicit root), an element or
      document, or the visual viewport, which only the proxy understands. */
  datatype ObserverRoot<E> = ImplicitRoot | NodeRoot(node: E) | VisualViewportRoot

  /** The options object (a missing options object is the one with every
      field absent). `threshold` is passed through untouched. */
  datatype ObserverInit<E> = ObserverInit(root: ObserverRoot<E>, rootMargin: Option<Margin>, threshold: seq<real>)

  /** A queued intersection record; how it is computed is the native
      observer's business. */
  datatype Entry<E> = Entry(target: E, intersectionRatio: real)

  /** A call made on a native observer, in the order of its log. */
  datatype Call<E> = ObserveCall(target: E) | UnobserveCall(target: E) | DisconnectCall | TakeRecordsCall

  /** The margin the source falls back to when a visual viewport root comes
      without a rootMargin: the string '0', a token with no unit. */
  const WrittenDefaultMargin: Margin := [Other]

  /** The fallback as evidently intended: zero pixels on every side. */
  const DefaultMargin: Margin := [Px(0.0)]

  function RequestedMargin<E>(init: ObserverInit<E>): Margin
  {
    match init.rootMargin
    case Some(m) => m
    case None => DefaultMargin
  }

  /** The options are usable: either the root is not the visual viewport
      (nothing is translated), or every token of the requested margin has a
      unit. */
  predicate MarginAccepted<E>(init: ObserverInit<E>)
  {
    !init.root.VisualViewportRoot? || HasUnits(RequestedMargin(init))
  }

  /** The options handed to a fresh native observer: a copy of the caller's
      options; when the root is the visual viewport, the margin is replaced
      by its layout-space translation against the current geometry and the
      root is dropped. */
  function ObserverConfig<E>(init: ObserverInit<E>, g: Geometry): (r: Result<ObserverInit<E>>)
    ensures r.Success? <==> MarginAccepted(init)
    ensures !init.root.VisualViewportRoot? ==> r == Success(init)
    ensures r.Success? ==> !r.value.root.VisualViewportRoot? && r.value.threshold == init.threshold
    ensures init.root.VisualViewportRoot? && r.Success? ==>
      r.value.root == ImplicitRoot && r.value.rootMargin.Some? &&
      ExpandRect(RootRect(g), r.value.rootMargin.value) == ExpandRect(VisualRect(g), RequestedMargin(init))
  {
    if init.root.VisualViewportRoot? then
      RoundTrip(VisualRect(g), RootRect(g), RequestedMargin(init));
      match ParseRootMargin(VisualRect(g), RootRect(g), RequestedMargin(init))
      case Failure(e) => Failure(e)
      case Success(px) => Success(init.(root := ImplicitRoot, rootMargin := Some(px)))
    else
      Success(init)
  }

  /** As written, the fallback '0' can never be translated: a visual
      viewport root without a rootMargin fails on every geometry. */
  lemma WrittenDefaultAlwaysFails(g: Geometry)
    ensures ParseRootMargin(VisualRect(g), RootRect(g), WrittenDefaultMargin) == Failure(UnsupportedUnit)
  {
    UnitlessTokenFails(VisualRect(g), WrittenDefaultMargin, 0);
  }

  /** With the zero pixel fallback, a visual viewport root without a
      rootMargin is always accepted and makes the native root coincide with
      the visual viewport. */
  lemma DefaultMarginTranslates<E>(init: ObserverInit<E>, g: Geometry)
    requires init.root.VisualViewportRoot? && init.rootMargin.None?
    ensures MarginAccepted(init)
    ensures ObserverConfig(init, g) == Success(init.(root := ImplicitRoot, rootMargin := Some(
      [Px(-g.offsetTop),
       Px(g.offsetLeft + g.viewportWidth - RootRect(g).width),
       Px(g.offsetTop + g.viewportHeight - RootRect(g).height),
       Px(-g.offsetLeft)])))
  {
    ZeroMarginOffsets(g);
  }

  /** Whether options are accepted does not depend on the geometry, so a
      proxy that could be built can always be rebuilt. A corollary of the
      first ensures of ObserverConfig, whose right-hand side does not
      mention the geometry. */
  lemma ConfigErrorIndependentOfGeometry<E>(init: ObserverInit<E>, g1: Geometry, g2: Geometry)
    ensures ObserverConfig(init, g1).Success? == ObserverConfig(init, g2).Success?
  {
  }

  /** The native IntersectionObserver, reduced to what the proxy relies on:
      its configuration, the targets it observes, its queue of records and
      whether it is disconnected (observing again after a disconnect
      reconnects it). The ghost `calls` logs the calls made on it, in
      order. */
  class Observer<E(==)> {
    const root: ObserverRoot<E>
    const rootMargin: Option<Margin>
    const thresholds: seq<real>
    var observed: set<E>
    var pending: seq<Entry<E>>
    var disconnected: bool
    ghost var calls: seq<Call<E>>

    function Config(): ObserverInit<E>
      reads this
    {
      ObserverInit(root, rootMargin, thresholds)
    }

    constructor (config: ObserverInit<E>)
      ensures Config() == config
      ensures observed == {} && pending == [] && !disconnected && calls == []
    {
      root, rootMargin, thresholds := config.root, config.rootMargin, config.threshold;
      observed, pending, disconnected := {}, [], false;
      calls := [];
    }

    method Observe(target: E)
      modifies this
      ensures observed == old(observed) + {target}
      ensures pending == old(pending) && !disconnected
      ensures calls == old(calls) + [ObserveCall(target)]
    {
      observed, disconnected := observed + {target}, false;
      calls := calls + [ObserveCall(target)];
    }

    method Unobserve(target: E)
      modifies this
      ensures observed == old(observed) - {target}
      ensures pending == old(pending) && disconnected == old(disconnected)
      ensures calls == old(calls) + [UnobserveCall(target)]
    {
      observed := observed - {target};
      calls := calls + [UnobserveCall(target)];
    }

    method Disconnect()
      modifies this
      ensures observed == {} && disconnected
      ensures pending == old(pending)
      ensures calls == old(calls) + [DisconnectCall]
    {
      observed, disconnected := {}, true;
      calls := calls + [DisconnectCall];
    }

    method TakeRecords() returns (records: seq<Entry<E>>)
      modifies this
      ensures records == old(pending) && pending == []
      ensures observed == old(observed) && disconnected == old(disconnected)
      ensures calls == old(calls) + [TakeRecordsCall]
    {
      records := pending;
      pending := [];
      calls := calls + [TakeRecordsCall];
    }
  }

  class VisualObserver<E(==)> {
    /** The caller's options, an immutable value fixed at construction:
        every rebuild starts again from the original request. */
    const init: ObserverInit<E>
    /** The live native observer. */
    var ob: Observer<E>
    /** The targets the caller has asked to watch. */
    var targets: set<E>
    /** The batches of records the proxy itself has handed to the caller's
        callback, oldest first. */
    var delivered: seq<seq<Entry<E>>>
    /** The geometry the live observer was configured against. */
    ghost var geometry: Geometry

    /** The live observer watches exactly the targets and was configured
        from the caller's options against the last geometry. */
    ghost predicate Valid()
      reads this, ob
    {
      MarginAccepted(init) &&
      ObserverConfig(init, geometry) == Success(ob.Config()) &&
      ob.observed == targets
    }

    /** A native observer configured from `init` against `g`. */
    static method CreateObserver(init: ObserverInit<E>, g: Geometry) returns (o: Observer<E>)
      requires MarginAccepted(init)
      ensures fresh(o)
      ensures ObserverConfig(init, g) == Success(o.Config())
      ensures o.observed == {} && o.pending == [] && !o.disconnected && o.calls == []
    {
      var config := ObserverConfig(init, g);
      o := new Observer(config.value);
    }

    constructor (init: ObserverInit<E>, g: Geometry)
      requires MarginAccepted(init)
      ensures Valid() && fresh(ob)
      ensures this.init == init && geometry == g
      ensures targets == {} && delivered == []
      ensures ob.pending == [] && !ob.disconnected && ob.calls == []
    {
      var o := CreateObserver(init, g);
      this.init := init;
      geometry := g;
      targets := {};
      delivered := [];
      ob := o;
    }

    /** Construction, which throws when the margin cannot be translated. */
    static method Create(init: ObserverInit<E>, g: Geometry) returns (r: Result<VisualObserver<E>>)
      ensures r.Failure? <==> !MarginAccepted(init)
      ensures r.Success? ==>
        fresh(r.value) && fresh(r.value.ob) && r.value.Valid() &&
        r.value.init == init && r.value.geometry == g &&
        r.value.targets == {} && r.value.delivered == [] &&
        r.value.ob.pending == [] && !r.value.ob.disconnected && r.value.ob.calls == []
    {
      if !MarginAccepted(init) {
        return Failure(UnsupportedUnit);
      }
      var p := new VisualObserver(init, g);
      return Success(p);
    }

    /** The reaction to a resize or scroll of the visual viewport: hand the
        live observer's queued records to the callback, disconnect it, and
        install a new observer, configured against `g`, that watches every
        current target. The old observer's log shows the order: its records
        are taken before it is disconnected, and nothing else is called on
        it. The new observer only ever receives `observe` for targets. */
    method UpdateViewport(g: Geometry)
      requires Valid()
      modifies this, ob
      ensures Valid() && geometry == g
      ensures targets == old(targets)
      ensures fresh(ob) && ob.observed == targets && ob.pending == [] && !ob.disconnected
      ensures delivered == old(delivered) + [old(ob.pending)]
      ensures old(ob).disconnected && old(ob).observed == {} && old(ob).pending == []
      ensures old(ob).calls == old(ob.calls) + [TakeRecordsCall, DisconnectCall]
      ensures forall c :: c in ob.calls ==> c.ObserveCall? && c.target in targets
    {
      var records := ob.TakeRecords();
      delivered := delivered + [records];
      ob.Disconnect();
      var o := CreateObserver(init, g);
      ob := o;
      geometry := g;
      var rest := targets;
      while rest != {}
        invariant rest <= targets
        invariant o.observed == targets - rest
        invariant o.pending == [] && !o.disconnected
        invariant forall c :: c in o.calls ==> c.ObserveCall? && c.target in targets
        modifies o
        decreases rest
      {
        var t :| t in rest;
        o.Observe(t);
        rest := rest - {t};
      }
    }

    /** The `root` getter: never the visual viewport, which was dropped
        from the options. */
    function Root(): (r: ObserverRoot<E>)
      reads this, ob
      requires Valid()
      ensures !r.VisualViewportRoot?
      ensures r == if init.root.VisualViewportRoot? then ImplicitRoot else init.root
    {
      ob.root
    }

    /** The `rootMargin` getter: the latest translation when the root is
        the visual viewport, otherwise the caller's margin. */
    function RootMargin(): (r: Option<Margin>)
      reads this, ob
      requires Valid()
      ensures init.root.VisualViewportRoot? ==>
        r.Some? && |r.value| == 4 && (forall i :: 0 <= i < 4 ==> r.value[i].Px?) &&
        ExpandRect(RootRect(geometry), r.value) == ExpandRect(VisualRect(geometry), RequestedMargin(init))
      ensures !init.root.VisualViewportRoot? ==> r == init.rootMargin
    {
      ob.rootMargin
    }

    /** The `thresholds` getter: the caller's thresholds, passed through. */
    function Thresholds(): (r: seq<real>)
      reads this, ob
      requires Valid()
      ensures r == init.threshold
    {
      ob.thresholds
    }

    method Disconnect()
      requires Valid()
      modifies this, ob
      ensures Valid() && ob == old(ob) && geometry == old(geometry)
      ensures targets == {} && ob.disconnected
      ensures ob.pending == old(ob.pending) && delivered == old(delivered)
      ensures ob.calls == old(ob.calls) + [DisconnectCall]
    {
      targets := {};
      ob.Disconnect();
    }

    method Observe(target: E)
      requires Valid()
      modifies this, ob
      ensures Valid() && ob == old(ob) && geometry == old(geometry)
      ensures targets == old(targets) + {target}
      ensures target in old(targets) ==> targets == old(targets)
      ensures ob.pending == old(ob.pending) && !ob.disconnected
      ensures ob.calls == old(ob.calls) + [ObserveCall(target)]
      ensures delivered == old(delivered)
    {
      targets := targets + {target};
      ob.Observe(target);
    }

    method TakeRecords() returns (records: seq<Entry<E>>)
      requires Valid()
      modifies ob
      ensures Valid() && records == old(ob.pending) && ob.pending == []
      ensures ob.observed == old(ob.observed) && ob.disconnected == old(ob.disconnected)
      ensures ob.calls == old(ob.calls) + [TakeRecordsCall]
    {
      records := ob.TakeRecords();
    }

    method Unobserve(target: E)
      requires Valid()
      modifies this, ob
      ensures Valid() && ob == old(ob) && geometry == old(geometry)
      ensures targets == old(targets) - {target}
      ensures ob.pending == old(ob.pending) && ob.disconnected == old(ob.disconnected)
      ensures ob.calls == old(ob.calls) + [UnobserveCall(target)]
      ensures delivered == old(delivered)
    {
      targets := targets - {target};
      ob.Unobserve(target);
    }
  }

  /** A target removed by `unobserve` stays unobserved through any number
      of later viewport changes. */
  method UnobserveThenResync<E(==)>(p: VisualObserver<E>, target: E, gs: seq<Geometry>)
    requires p.Valid()
    modifies p, p.ob
    ensures p.Valid() && target !in p.targets && target !in p.ob.observed
  {
    p.Unobserve(target);
    for i := 0 to |gs|
      invariant p.Valid() && target !in p.targets
      invariant fresh(p.ob) || p.ob == old(p.ob)
    {
      p.UpdateViewport(gs[i]);
    }
  }
}
