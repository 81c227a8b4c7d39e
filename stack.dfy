/**
 * createStack, WrappedWriter and logging, which are the same in app/middlewares.go and
 * http_with_ent/middlewares.go.
 */
module Stack {
  import opened Wrappers
  import opened Http

  /** xs[0](xs[1](... xs[n-1](h))): the first middleware listed is the outermost. */
  function Nest(xs: seq<Middleware>, h: Handler): Handler
    decreases |xs|
  {
    if xs == [] then h else xs[0](Nest(xs[1..], h))
  }

  /** The middleware createStack(xs...) returns. */
  function CreateStack(xs: seq<Middleware>): Middleware
  {
    (next: Handler) => Nest(xs, next)
  }

  /** The body of the closure createStack returns: wrap next from the last middleware to
      the first, reassigning next each time. */
  method ApplyStack(xs: seq<Middleware>, next: Handler) returns (h: Handler)
    ensures h == Nest(xs, next)
  {
    h := next;
    var i := |xs| - 1;
    while i >= 0
      invariant -1 <= i < |xs|
      invariant h == Nest(xs[i + 1..], next)
      decreases i
    {
      var x := xs[i];
      assert xs[i..][1..] == xs[i + 1..];
      h := x(h);
      i := i - 1;
    }
    assert xs[0..] == xs;
  }

  /** Stacking two lists is stacking their concatenation. */
  lemma {:induction false} NestAppend(xs: seq<Middleware>, ys: seq<Middleware>, h: Handler)
    ensures Nest(xs + ys, h) == Nest(xs, Nest(ys, h))
    decreases |xs|
  {
    if xs == [] {
      assert xs + ys == ys;
    } else {
      assert (xs + ys)[1..] == xs[1..] + ys;
      NestAppend(xs[1..], ys, h);
    }
  }

  /** An empty stack returns the handler unchanged. */
  lemma EmptyStack(h: Handler)
    ensures CreateStack([])(h) == h
  {
  }

  /** The marks a traced middleware emits on entry and on exit. */
  function Enter(m: string): Action
  {
    Trace("enter " + m)
  }

  function Exit(m: string): Action
  {
    Trace("exit " + m)
  }

  /** A middleware that marks its entry, calls next, then marks its exit. */
  function Tracer(m: string): Middleware
  {
    (next: Handler) => ((r: Request) => [Enter(m)] + next(r) + [Exit(m)])
  }

  function Tracers(ms: seq<string>): (xs: seq<Middleware>)
    ensures |xs| == |ms|
    decreases |ms|
  {
    if ms == [] then [] else [Tracer(ms[0])] + Tracers(ms[1..])
  }

  /** The entry marks in the order listed. */
  function Entries(ms: seq<string>): (acts: seq<Action>)
    ensures |acts| == |ms|
    decreases |ms|
  {
    if ms == [] then [] else [Enter(ms[0])] + Entries(ms[1..])
  }

  /** The exit marks in the reverse of the order listed. */
  function Exits(ms: seq<string>): (acts: seq<Action>)
    ensures |acts| == |ms|
    decreases |ms|
  {
    if ms == [] then [] else Exits(ms[1..]) + [Exit(ms[0])]
  }

  /** The middlewares of a stack are entered in the order they are listed, before the
      handler, and left in the reverse order, after it. */
  lemma {:induction false} StackOrder(ms: seq<string>, next: Handler, r: Request)
    ensures CreateStack(Tracers(ms))(next)(r) == Entries(ms) + next(r) + Exits(ms)
    decreases |ms|
  {
    if ms == [] {
      assert [] + next(r) + [] == next(r);
    } else {
      var m, rest := ms[0], ms[1..];
      var inner := Nest(Tracers(rest), next);
      assert Tracers(ms)[1..] == Tracers(rest);
      assert Nest(Tracers(ms), next)(r) == [Enter(m)] + inner(r) + [Exit(m)];
      StackOrder(rest, next, r);
      Regroup([Enter(m)], Entries(rest), next(r), Exits(rest), [Exit(m)]);
    }
  }

  /** Concatenation regrouped around its middle part. */
  lemma Regroup(a: seq<Action>, b: seq<Action>, c: seq<Action>, d: seq<Action>, e: seq<Action>)
    ensures a + (b + c + d) + e == (a + b) + c + (d + e)
  {
  }

  /** Two traced middlewares around a probe handler: both entries, the handler, then
      the exits innermost first. */
  lemma TwoLayerTrace(r: Request)
    ensures CreateStack(Tracers(["M1", "M2"]))(Probe("H"))(r)
      == [Enter("M1"), Enter("M2"), Trace("H"), Exit("M2"), Exit("M1")]
  {
    var ms := ["M1", "M2"];
    StackOrder(ms, Probe("H"), r);
    assert ms[1..] == ["M2"] && ms[1..][1..] == [];
    assert Entries(ms) == [Enter("M1"), Enter("M2")];
    assert Exits(ms) == [Exit("M2"), Exit("M1")];
  }

  /** A handler that writes its body before calling WriteHeader(c) is logged with c,
      although the client was sent 200. */
  lemma BodyFirstLogged(d: Data, c: int)
    ensures LoggedStatus([Write(d), WriteHeader(c)]) == c
    ensures Status(Run([Write(d), WriteHeader(c)], Blank)) == StatusOK
  {
    WriteBeforeHeader(d, c);
  }

  /** logging: the response is whatever next produces; the log line is not modelled. */
  function Logging(next: Handler): Handler
  {
    r => next(r)
  }

  /** The code the log line prints: the last one passed to WriteHeader, or 202. */
  function LoggedStatus(acts: seq<Action>): (c: int)
    ensures c == StatusAccepted || WriteHeader(c) in acts
    decreases |acts|
  {
    if acts == [] then StatusAccepted
    else if acts[|acts| - 1].WriteHeader? then acts[|acts| - 1].code
    else LoggedStatus(acts[..|acts| - 1])
  }

  /** The logged code is the last code the writer received from the handler, or 202 if
      the handler sent none. */
  lemma {:induction false} LoggedIsLastCode(acts: seq<Action>, w: Response)
    ensures |Run(acts, w).codes| >= |w.codes| && Run(acts, w).codes[..|w.codes|] == w.codes
    ensures |Run(acts, w).codes| == |w.codes| ==> LoggedStatus(acts) == StatusAccepted
    ensures |Run(acts, w).codes| > |w.codes| ==> LoggedStatus(acts) == Run(acts, w).codes[|Run(acts, w).codes| - 1]
    decreases |acts|
  {
    if acts != [] {
      LoggedIsLastCode(acts[..|acts| - 1], w);
    }
  }

  /** A handler that never calls WriteHeader: the client sees 200, the log says 202. */
  lemma NoWriteHeader(acts: seq<Action>)
    requires forall i :: 0 <= i < |acts| ==> !acts[i].WriteHeader?
    ensures Status(Run(acts, Blank)) == StatusOK
    ensures LoggedStatus(acts) == StatusAccepted
  {
    NoCodes(acts, Blank);
    LoggedIsLastCode(acts, Blank);
  }

  lemma {:induction false} NoCodes(acts: seq<Action>, w: Response)
    requires forall i :: 0 <= i < |acts| ==> !acts[i].WriteHeader?
    ensures Run(acts, w).codes == w.codes
    ensures Run(acts, w).committed == w.committed || Run(acts, w).committed == Some(StatusOK)
    decreases |acts|
  {
    if acts != [] {
      NoCodes(acts[..|acts| - 1], w);
    }
  }

  /** A response writer that records what it receives. */
  class Recorder {
    var header: Header
    var codes: seq<int>
    var body: seq<Data>
    var committed: Option<int>

    function State(): Response
      reads this
    {
      Response(header, codes, body, committed)
    }

    constructor ()
      ensures State() == Blank
    {
      header, codes, body, committed := map[], [], [], None;
    }

    method Perform(a: Action)
      modifies this
      ensures State() == Step(old(State()), a)
    {
      match a
      case SetHeader(k, v) => header := header[k := [v]];
      case WriteHeader(c) =>
        codes := codes + [c];
        if committed.None? {
          committed := Some(c);
        }
      case Write(d) =>
        body := body + [d];
        if committed.None? {
          committed := Some(StatusOK);
        }
      case Trace(_) =>
    }
  }

  /** WrappedWriter: forwards everything to the writer it wraps and remembers the last
      status code passed to WriteHeader. */
  class WrappedWriter {
    const inner: Recorder
    var statusCode: int

    /** logging creates the wrapper with statusCode http.StatusAccepted. */
    constructor (w: Recorder)
      ensures inner == w && statusCode == StatusAccepted
    {
      inner := w;
      statusCode := StatusAccepted;
    }

    method WriteHeader(code: int)
      modifies this, inner
      ensures inner.State() == Step(old(inner.State()), Http.WriteHeader(code))
      ensures statusCode == code
    {
      inner.Perform(Http.WriteHeader(code));
      statusCode := code;
    }

    /** One writer operation through the wrapper: WriteHeader is the overridden method,
        everything else goes to the embedded writer unchanged. */
    method Perform(a: Action)
      modifies this, inner
      ensures inner.State() == Step(old(inner.State()), a)
      ensures statusCode == (if a.WriteHeader? then a.code else old(statusCode))
    {
      if a.WriteHeader? {
        WriteHeader(a.code);
      } else {
        inner.Perform(a);
      }
    }
  }

  /** logging(next).ServeHTTP(w, r): next writes through a fresh WrappedWriter; the writer
      ends up with exactly what next produced, and the returned code is the one logged. */
  method ServeLogged(next: Handler, r: Request, w: Recorder) returns (logged: int)
    modifies w
    ensures w.State() == Run(Logging(next)(r), old(w.State()))
    ensures logged == LoggedStatus(next(r))
  {
    var acts := next(r);
    var wrapped := new WrappedWriter(w);
    var i := 0;
    while i < |acts|
      invariant 0 <= i <= |acts|
      invariant wrapped.inner == w
      invariant w.State() == Run(acts[..i], old(w.State()))
      invariant wrapped.statusCode == LoggedStatus(acts[..i])
    {
      wrapped.Perform(acts[i]);
      assert acts[..i + 1][..i] == acts[..i];
      i := i + 1;
    }
    assert acts[..|acts|] == acts;
    logged := wrapped.statusCode;
  }
}
