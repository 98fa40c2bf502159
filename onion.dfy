/** The "onion" every adapter builds: net/http middlewares wrapped right to
    left around a terminal handler, so that the first middleware is the
    outermost layer. */
module Onion {

  /** A middleware as the adapters see it. `Pass` does its `before` work,
      calls next, and does its `after` work once next returns; `Stop` writes
      its own response and never calls next. */
  datatype Middleware = Pass(before: string, after: string) | Stop(tag: string)

  /** A composed handler: what `mw(next)` returns, layer by layer. */
  datatype Handler = Endpoint(name: string) | Layer(mw: Middleware, next: Handler)

  /** What can be observed of one run of a handler. */
  datatype Event = Enter(tag: string) | Leave(tag: string) | Halt(tag: string) | Reached(name: string)

  /** One run of a composed handler. */
  function Exec(h: Handler): seq<Event>
  {
    match h
    case Endpoint(n) => [Reached(n)]
    case Layer(Pass(b, a), next) => [Enter(b)] + Exec(next) + [Leave(a)]
    case Layer(Stop(t), _) => [Halt(t)]
  }

  /** The handler obtained by wrapping `mws` around `h`, `mws[0]` outermost. */
  function Nest(mws: seq<Middleware>, h: Handler): Handler
  {
    if mws == [] then h else Layer(mws[0], Nest(mws[1..], h))
  }

  /** The composition loop of every adapter:
      `for i := len(mws) - 1; i >= 0; i-- { h = mws[i](h) }`. */
  method Compose(mws: seq<Middleware>, h: Handler) returns (r: Handler)
    ensures r == Nest(mws, h)
  {
    r := h;
    var i := |mws|;
    while i > 0
      invariant 0 <= i <= |mws|
      invariant r == Nest(mws[i..], h)
    {
      i := i - 1;
      assert mws[i..][1..] == mws[i + 1..];
      r := Layer(mws[i], r);
    }
    assert mws[0..] == mws;
  }

  /** Wrapping `a + b` is wrapping `b` first and `a` around the result; so
      two countdown loops, the inner stack first, build one onion. */
  lemma {:induction false} NestAppend(a: seq<Middleware>, b: seq<Middleware>, h: Handler)
    ensures Nest(a + b, h) == Nest(a, Nest(b, h))
    decreases |a|
  {
    if a != [] {
      assert (a + b)[0] == a[0] && (a + b)[1..] == a[1..] + b;
      NestAppend(a[1..], b, h);
    } else {
      assert a + b == b;
    }
  }

  predicate AllPass(mws: seq<Middleware>)
  {
    forall i :: 0 <= i < |mws| ==> mws[i].Pass?
  }

  /** The `before` work of a run of passing layers, outermost first. */
  function Enters(mws: seq<Middleware>): seq<Event>
    requires AllPass(mws)
  {
    if mws == [] then [] else [Enter(mws[0].before)] + Enters(mws[1..])
  }

  /** The `after` work of a run of passing layers, innermost first. */
  function Unwind(mws: seq<Middleware>): seq<Event>
    requires AllPass(mws)
  {
    if mws == [] then [] else Unwind(mws[1..]) + [Leave(mws[0].after)]
  }

  /** When every layer calls next: all `before` work outer to inner, then the
      handler, then all `after` work inner to outer. */
  lemma {:induction false} RunAllPass(mws: seq<Middleware>, x: string)
    requires AllPass(mws)
    ensures Exec(Nest(mws, Endpoint(x))) == Enters(mws) + [Reached(x)] + Unwind(mws)
    decreases |mws|
  {
    if mws != [] {
      RunAllPass(mws[1..], x);
    }
  }

  /** When layer `k` is the first that does not call next: the `before` work
      of the layers outside it, its own response, the `after` work of the
      layers outside it, and nothing of the layers inside it or the handler. */
  lemma {:induction false} RunStops(mws: seq<Middleware>, x: string, k: nat)
    requires k < |mws| && mws[k].Stop? && AllPass(mws[..k])
    ensures Exec(Nest(mws, Endpoint(x))) == Enters(mws[..k]) + [Halt(mws[k].tag)] + Unwind(mws[..k])
    decreases k
  {
    if k > 0 {
      assert mws[1..][..k - 1] == mws[..k][1..];
      RunStops(mws[1..], x, k - 1);
    }
  }

  lemma {:induction false} NoHandlerInLayers(mws: seq<Middleware>, x: string)
    requires AllPass(mws)
    ensures Reached(x) !in Enters(mws) && Reached(x) !in Unwind(mws)
    decreases |mws|
  {
    if mws != [] {
      NoHandlerInLayers(mws[1..], x);
    }
  }

  /** The first layer that does not call next. */
  function FirstStop(mws: seq<Middleware>): (k: nat)
    requires !AllPass(mws)
    ensures k < |mws| && mws[k].Stop? && AllPass(mws[..k])
  {
    if mws[0].Stop? then 0
    else
      var k := FirstStop(mws[1..]);
      assert mws[..k + 1] == [mws[0]] + mws[1..][..k];
      k + 1
  }

  /** The terminal handler runs exactly when every layer calls next. */
  lemma HandlerRunsIff(mws: seq<Middleware>, x: string)
    ensures Reached(x) in Exec(Nest(mws, Endpoint(x))) <==> AllPass(mws)
  {
    if AllPass(mws) {
      RunAllPass(mws, x);
    } else {
      var k := FirstStop(mws);
      RunStops(mws, x, k);
      NoHandlerInLayers(mws[..k], x);
    }
  }

  /** The text a trace writes when every tag is appended to a log. */
  function Render(ev: seq<Event>): string
  {
    if ev == [] then ""
    else
      var e := ev[0];
      var t := match e
        case Enter(t) => t
        case Leave(t) => t
        case Halt(t) => t
        case Reached(n) => n;
      t + Render(ev[1..])
  }

  lemma RenderAppend(a: seq<Event>, b: seq<Event>)
    ensures Render(a + b) == Render(a) + Render(b)
  {
    if a != [] {
      assert (a + b)[0] == a[0] && (a + b)[1..] == a[1..] + b;
      RenderAppend(a[1..], b);
    } else {
      assert a + b == b;
    }
  }

  /** A passing layer writes its `before` text, then whatever the handler it
      wraps writes, then its `after` text. */
  lemma RenderLayer(b: string, a: string, rest: seq<Middleware>, x: string)
    ensures Render(Exec(Nest([Pass(b, a)] + rest, Endpoint(x)))) == b + Render(Exec(Nest(rest, Endpoint(x)))) + a
  {
    assert ([Pass(b, a)] + rest)[1..] == rest;
    var inner := Exec(Nest(rest, Endpoint(x)));
    RenderAppend([Enter(b)] + inner, [Leave(a)]);
    RenderAppend([Enter(b)], inner);
    assert Render([Leave(a)]) == a + Render([]);
    assert Render([Enter(b)]) == b + Render([]);
  }
}
