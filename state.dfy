/** The per-request state every adapter threads through the request context:
    a map of route parameters and a body cached for repeated reads. Go maps
    and slices are modelled as values, so "a new map is built and the old one
    is left alone" is what a value copy means here. */
module TranswarpState {
  import opened Text

  newtype Byte = b: int | 0 <= b < 256

  type Params = map<string, string>

  /** `Body` is nil (`None`) until some layer has read the request body. */
  datatype State = State(params: Params, body: Option<seq<Byte>>)

  /** What `r.Body` holds on an incoming request: nil, `http.NoBody`, or a
      readable stream with these bytes. */
  datatype RequestBody = NilBody | NoBody | Content(bytes: seq<Byte>)

  /** A Go map read: the zero value `""` when the key is absent. */
  function Lookup(m: Params, k: string): (v: string)
    ensures k in m ==> v == m[k]
    ensures k !in m ==> v == ""
  {
    if k in m then m[k] else ""
  }

  /** One assignment `newParams[k] = v`. */
  datatype Write = Write(key: string, value: string)

  /** The map after the assignments `ws`, in order, on top of `m`. */
  function Apply(m: Params, ws: seq<Write>): Params
    decreases |ws|
  {
    if ws == [] then m
    else
      var w := ws[|ws| - 1];
      Apply(m, ws[..|ws| - 1])[w.key := w.value]
  }

  /** The value of the last assignment to `k` among `ws`, if any. */
  function LastWrite(ws: seq<Write>, k: string): Option<string>
    decreases |ws|
  {
    if ws == [] then None
    else if ws[|ws| - 1].key == k then Some(ws[|ws| - 1].value)
    else LastWrite(ws[..|ws| - 1], k)
  }

  /** After a run of assignments a key holds its last assigned value, and a
      key never assigned keeps whatever the starting map had. */
  lemma {:induction false} ApplyAt(m: Params, ws: seq<Write>, k: string)
    ensures k in Apply(m, ws) <==> k in m || LastWrite(ws, k).Some?
    ensures LastWrite(ws, k).Some? ==> Apply(m, ws)[k] == LastWrite(ws, k).value
    ensures LastWrite(ws, k).None? && k in m ==> Apply(m, ws)[k] == m[k]
    decreases |ws|
  {
    if ws != [] {
      ApplyAt(m, ws[..|ws| - 1], k);
    }
  }

  lemma {:induction false} ApplyConcat(m: Params, a: seq<Write>, b: seq<Write>)
    ensures Apply(m, a + b) == Apply(Apply(m, a), b)
    decreases |b|
  {
    if b == [] {
      assert a + b == a;
    } else {
      assert (a + b)[..|a + b| - 1] == a + b[..|b| - 1];
      assert (a + b)[|a + b| - 1] == b[|b| - 1];
      ApplyConcat(m, a, b[..|b| - 1]);
    }
  }

  lemma {:induction false} LastWriteConcat(a: seq<Write>, b: seq<Write>, k: string)
    ensures LastWrite(a + b, k) == if LastWrite(b, k).Some? then LastWrite(b, k) else LastWrite(a, k)
    decreases |b|
  {
    if b == [] {
      assert a + b == a;
    } else {
      assert (a + b)[..|a + b| - 1] == a + b[..|b| - 1];
      assert (a + b)[|a + b| - 1] == b[|b| - 1];
      LastWriteConcat(a, b[..|b| - 1], k);
    }
  }

  /** The copy loop `for k, v := range state.Params { newParams[k] = v }`
      every adapter runs before writing: a fresh map equal to the old one,
      built in whatever order the map is walked. */
  method CopyParams(m: Params) returns (n: Params)
    ensures n == m
  {
    n := map[];
    var todo := m.Keys;
    while todo != {}
      invariant todo <= m.Keys
      invariant n.Keys == m.Keys - todo
      invariant forall k :: k in n ==> n[k] == m[k]
      decreases |todo|
    {
      var k :| k in todo;
      n := n[k := m[k]];
      todo := todo - {k};
    }
  }

  /** A run of assignments into a map, in order. */
  method ApplyWrites(m: Params, ws: seq<Write>) returns (n: Params)
    ensures n == Apply(m, ws)
  {
    n := m;
    for i := 0 to |ws|
      invariant n == Apply(m, ws[..i])
    {
      assert ws[..i + 1][..i] == ws[..i];
      n := n[ws[i].key := ws[i].value];
    }
    assert ws[..|ws|] == ws;
  }

  /** `io.ReadAll` followed by the replay reader: the cached bytes, when the
      request carries a readable body. The replay hands later handlers a
      reader over the same bytes, so the request's content is unchanged. */
  function ReadBody(req: RequestBody): (b: Option<seq<Byte>>)
    ensures b.Some? <==> req.Content?
    ensures b.Some? ==> b.value == req.bytes
  {
    if req.Content? then Some(req.bytes) else None
  }

  /** The rule shared by echo's and chi's `ServeHTTP`: the state starts with
      no parameters, and the body is captured only for a request that is not
      a GET and whose body is neither nil nor `http.NoBody`. */
  function EntryState(verb: string, req: RequestBody): (s: State)
    ensures s.params == map[]
    ensures s.body.Some? <==> verb != "GET" && req.Content?
    ensures s.body.Some? ==> s.body.value == req.bytes
  {
    State(map[], if verb != "GET" then ReadBody(req) else None)
  }

  /** The lazy rule of mux's and chi's `wrapState`: a body some outer layer
      already cached is reused; otherwise the body is read now, whatever the
      method. */
  function LazyBody(cached: Option<seq<Byte>>, req: RequestBody): (b: Option<seq<Byte>>)
    ensures cached.Some? ==> b == cached
    ensures cached.None? ==> b == ReadBody(req)
  {
    if cached.Some? then cached else ReadBody(req)
  }
}
