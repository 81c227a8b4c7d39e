/**
 * The parts of Go's net/http and context packages that the middlewares touch, as values.
 *
 * A handler is modelled by what it does to the response writer: the ordered list of
 * writer operations it performs for a request. A middleware maps a handler to a handler.
 * Replaying the operations into an empty writer gives the response the client receives.
 */
module Http {
  import opened Wrappers

  const StatusOK: int := 200
  const StatusAccepted: int := 202
  const StatusBadRequest: int := 400
  const StatusUnauthorized: int := 401
  const StatusForbidden: int := 403
  const StatusNotFound: int := 404
  const StatusUnsupportedMediaType: int := 415
  const StatusInternalServerError: int := 500

  const MethodOptions: string := "OPTIONS"

  /** An http.Header: each (canonical) key maps to the list of its values. */
  type Header = map<string, seq<string>>

  /** Header.Get: the first value under key, or "" when the key is absent or has no value. */
  function Get(h: Header, key: string): string
  {
    if key in h && |h[key]| > 0 then h[key][0] else ""
  }

  /** Header.Set: key now has exactly the one value v. */
  function Set(h: Header, key: string, v: string): Header
  {
    h[key := [v]]
  }

  /** A Go value handed to json.Marshal; `Unencodable` stands for a channel, a function or a NaN. */
  datatype Data =
    | Null
    | Bool(b: bool)
    | Num(n: int)
    | Str(s: string)
    | Arr(items: seq<Data>)
    | Obj(fields: seq<Field>)
    | Unencodable

  datatype Field = Field(name: string, value: Data)

  /** json.Marshal succeeds exactly on values with no unencodable part. */
  predicate Encodable(d: Data)
  {
    match d
    case Unencodable => false
    case Arr(items) => forall i :: 0 <= i < |items| ==> Encodable(items[i])
    case Obj(fields) => forall i :: 0 <= i < |fields| ==> Encodable(fields[i].value)
    case _ => true
  }

  /** The one-entry map `M{name: value}` of the source. */
  function Single(name: string, value: Data): Data
  {
    Obj([Field(name, value)])
  }

  lemma EncodableSingle(name: string, value: Data)
    ensures Encodable(Single(name, value)) == Encodable(value)
  {
    assert Single(name, value).fields[0].value == value;
  }

  /** One operation on an http.ResponseWriter. `Trace` is an observation point that a
      handler outside the model emits; it leaves the response unchanged. */
  datatype Action =
    | SetHeader(key: string, value: string)
    | WriteHeader(code: int)
    | Write(body: Data)
    | Trace(mark: string)

  /** What a response writer has received: its header map, every code passed to
      WriteHeader in order, every body written in order, and the status line once it
      is committed. net/http commits the status at the first WriteHeader, or as 200 at
      the first Write that comes before any WriteHeader; later codes do not change it. */
  datatype Response = Response(header: Header, codes: seq<int>, body: seq<Data>, committed: Option<int>)

  const Blank: Response := Response(map[], [], [], None)

  /** The committed status after a code is offered: the first one offered wins. */
  function Commit(committed: Option<int>, code: int): (c: Option<int>)
    ensures c.Some?
    ensures committed.Some? ==> c == committed
  {
    if committed.None? then Some(code) else committed
  }

  function Step(w: Response, a: Action): Response
  {
    match a
    case SetHeader(k, v) => w.(header := Set(w.header, k, v))
    case WriteHeader(c) => w.(codes := w.codes + [c], committed := Commit(w.committed, c))
    case Write(d) => w.(body := w.body + [d], committed := Commit(w.committed, StatusOK))
    case Trace(_) => w
  }

  /** Replay the operations, first to last, into the writer w. */
  function Run(acts: seq<Action>, w: Response): Response
    decreases |acts|
  {
    if acts == [] then w else Step(Run(acts[..|acts| - 1], w), acts[|acts| - 1])
  }

  /** The status line the client sees: the committed one, or 200 when the handler
      neither wrote a body nor called WriteHeader. */
  function Status(w: Response): int
  {
    if w.committed.Some? then w.committed.value else StatusOK
  }

  lemma {:induction false} RunAppend(xs: seq<Action>, ys: seq<Action>, w: Response)
    ensures Run(xs + ys, w) == Run(ys, Run(xs, w))
    decreases |ys|
  {
    if ys == [] {
      assert xs + ys == xs;
    } else {
      var zs := ys[..|ys| - 1];
      assert (xs + ys)[..|xs + ys| - 1] == xs + zs;
      RunAppend(xs, zs, w);
    }
  }

  lemma RunOne(a: Action, w: Response)
    ensures Run([a], w) == Step(w, a)
  {
    assert [a][..0] == [];
  }

  /** Once committed, the status line never changes. */
  lemma {:induction false} CommittedStays(acts: seq<Action>, w: Response)
    requires w.committed.Some?
    ensures Run(acts, w).committed == w.committed
    decreases |acts|
  {
    if acts != [] {
      CommittedStays(acts[..|acts| - 1], w);
    }
  }

  /** Operations that neither write a body nor call WriteHeader commit nothing. */
  lemma {:induction false} Uncommitted(acts: seq<Action>, w: Response)
    requires w.committed.None?
    requires forall i :: 0 <= i < |acts| ==> !acts[i].WriteHeader? && !acts[i].Write?
    ensures Run(acts, w).committed.None?
    decreases |acts|
  {
    if acts != [] {
      Uncommitted(acts[..|acts| - 1], w);
    }
  }

  /** With a fresh writer, the client sees the code of the first WriteHeader when only
      header changes come before it, whatever follows it (more codes, bodies). */
  lemma HeaderFirst(pre: seq<Action>, c: int, rest: seq<Action>)
    requires forall i :: 0 <= i < |pre| ==> !pre[i].WriteHeader? && !pre[i].Write?
    ensures Status(Run(pre + [WriteHeader(c)] + rest, Blank)) == c
  {
    RunAppend(pre + [WriteHeader(c)], rest, Blank);
    RunAppend(pre, [WriteHeader(c)], Blank);
    Uncommitted(pre, Blank);
    RunOne(WriteHeader(c), Run(pre, Blank));
    CommittedStays(rest, Run(pre + [WriteHeader(c)], Blank));
  }

  /** A body written before WriteHeader commits 200: the later code is received by the
      writer but not sent to the client. */
  lemma WriteBeforeHeader(d: Data, c: int)
    ensures Status(Run([Write(d), WriteHeader(c)], Blank)) == StatusOK
    ensures Run([Write(d), WriteHeader(c)], Blank).codes == [c]
  {
    assert [Write(d), WriteHeader(c)][..1] == [Write(d)];
    RunOne(Write(d), Blank);
  }

  /** The number of Trace(mark) markers among the operations. */
  function Visits(acts: seq<Action>, mark: string): nat
    decreases |acts|
  {
    if acts == [] then 0
    else Visits(acts[..|acts| - 1], mark) + (if acts[|acts| - 1] == Trace(mark) then 1 else 0)
  }

  lemma {:induction false} VisitsAppend(xs: seq<Action>, ys: seq<Action>, mark: string)
    ensures Visits(xs + ys, mark) == Visits(xs, mark) + Visits(ys, mark)
    decreases |ys|
  {
    if ys == [] {
      assert xs + ys == xs;
    } else {
      var zs := ys[..|ys| - 1];
      assert (xs + ys)[..|xs + ys| - 1] == xs + zs;
      VisitsAppend(xs, zs, mark);
    }
  }

  /** Operations that hold no Trace(mark) contain no visit to mark. */
  lemma {:induction false} NoVisits(acts: seq<Action>, mark: string)
    requires forall i :: 0 <= i < |acts| ==> acts[i] != Trace(mark)
    ensures Visits(acts, mark) == 0
    decreases |acts|
  {
    if acts != [] {
      NoVisits(acts[..|acts| - 1], mark);
    }
  }

  /** A user row as returned by the ORM's `User.Get`; only its identity matters here. */
  datatype User = User(id: int, name: string)

  /** A key of a context.Context. Go compares keys by dynamic type and value, so the
      private `contextKey("user")` and the plain string "user" are different keys. */
  datatype Key = StringKey(s: string) | ContextKey(name: string)

  /** A value stored in a context.Context, with its dynamic type. */
  datatype Value = UserValue(user: User) | StringValue(s: string) | IntValue(i: int)

  /** A context.Context: the background context or a `context.WithValue` layer on a parent. */
  datatype Context = Background | WithValue(parent: Context, key: Key, val: Value)

  /** Context.Value: the value of the innermost layer whose key equals key. */
  function Lookup(ctx: Context, key: Key): Option<Value>
  {
    match ctx
    case Background => None
    case WithValue(parent, k, v) => if k == key then Some(v) else Lookup(parent, key)
  }

  datatype Request = Request(verb: string, path: string, header: Header, ctx: Context)

  /** Request.WithContext: the same request with another context. */
  function WithContext(r: Request, ctx: Context): Request
  {
    r.(ctx := ctx)
  }

  /** An http.Handler, given by the writer operations it performs for each request. */
  type Handler = Request -> seq<Action>

  /** `type Middleware func(http.Handler) http.Handler`. */
  type Middleware = Handler -> Handler

  /** A downstream handler that only records that it was reached. */
  function Probe(mark: string): Handler
  {
    r => [Trace(mark)]
  }
}
