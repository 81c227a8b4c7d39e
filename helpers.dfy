/**
 * app/helpers.go: the JSON response envelope (writeJSON, errorResponse) and the
 * request-body gatekeeping of readJSON (Content-Type check, one JSON value per body).
 */
module Helpers {
  import opened Wrappers
  import opened Http
  import opened Strings

  const ContentType: string := "Content-Type"
  const ApplicationJson: string := "application/json"

  /** The error readJSON returns. */
  datatype MalformedRequest = MalformedRequest(status: int, msg: string)
  {
    /** `(*malformedRequest).Error`: the message, unchanged. */
    function Error(): (s: string)
      ensures s == msg
    {
      msg
    }
  }

  /** What errorResponse sends when json.Marshal fails: `{"errors": "internal error"}`. */
  const InternalError: Data := Single("errors", Str("internal error"))

  /**
   * writeJSON(w, code, data) on a writer whose first failedWrites calls to Write fail.
   * If data cannot be marshalled, errorResponse(w, 500, "internal error") is sent instead.
   * Otherwise Content-Type is set, then the code, then the body is written; if that write
   * fails, errorResponse(w, 500, "internal error") follows. A failed Write delivers
   * nothing and is not listed.
   */
  function WriteJSONWith(code: int, data: Data, failedWrites: nat): (acts: seq<Action>)
    ensures |acts| == 2 * failedWrites + 3
    ensures acts[0] == SetHeader(ContentType, ApplicationJson) && acts[|acts| - 1].Write?
    ensures Encodable(data) ==> acts[1] == WriteHeader(code)
    decreases failedWrites, if Encodable(data) then 0 else 2
  {
    if !Encodable(data) then ErrorResponseWith(StatusInternalServerError, Str("internal error"), failedWrites)
    else
      [SetHeader(ContentType, ApplicationJson), WriteHeader(code)]
      + (if failedWrites == 0 then [Write(data)]
         else ErrorResponseWith(StatusInternalServerError, Str("internal error"), failedWrites - 1))
  }

  /** errorResponse(w, code, errs) is writeJSON(w, code, M{"errors": errs}). */
  function ErrorResponseWith(code: int, errs: Data, failedWrites: nat): (acts: seq<Action>)
    ensures |acts| == 2 * failedWrites + 3
    ensures acts[0] == SetHeader(ContentType, ApplicationJson) && acts[|acts| - 1].Write?
    ensures Encodable(errs) ==> acts[1] == WriteHeader(code)
    decreases failedWrites, if Encodable(errs) then 1 else 3
  {
    EncodableSingle("errors", errs);
    WriteJSONWith(code, Single("errors", errs), failedWrites)
  }

  /** writeJSON on a writer that accepts every write. */
  function WriteJSON(code: int, data: Data): seq<Action>
  {
    WriteJSONWith(code, data, 0)
  }

  /** errorResponse on a writer that accepts every write. */
  function ErrorResponse(code: int, errs: Data): seq<Action>
  {
    ErrorResponseWith(code, errs, 0)
  }

  /** writeJSON sets Content-Type, then the status, then writes the body, in this order;
      when marshalling fails it sends the 500 "internal error" envelope instead. */
  lemma WriteJSONSteps(code: int, data: Data)
    ensures Encodable(data) ==>
      WriteJSON(code, data) == [SetHeader(ContentType, ApplicationJson), WriteHeader(code), Write(data)]
    ensures !Encodable(data) ==>
      WriteJSON(code, data)
      == [SetHeader(ContentType, ApplicationJson), WriteHeader(StatusInternalServerError), Write(InternalError)]
  {
    EncodableSingle("errors", Str("internal error"));
    assert ErrorResponseWith(StatusInternalServerError, Str("internal error"), 0)
      == WriteJSONWith(StatusInternalServerError, InternalError, 0);
  }

  /** The response a writeJSON call leaves in a writer: the JSON content type, the status
      and the body are added, nothing else changes. */
  lemma WriteJSONResponse(code: int, data: Data, w: Response)
    ensures Encodable(data) ==>
      Run(WriteJSON(code, data), w)
      == Response(Set(w.header, ContentType, ApplicationJson), w.codes + [code], w.body + [data], Commit(w.committed, code))
    ensures !Encodable(data) ==>
      Run(WriteJSON(code, data), w)
      == Response(Set(w.header, ContentType, ApplicationJson), w.codes + [StatusInternalServerError], w.body + [InternalError],
                  Commit(w.committed, StatusInternalServerError))
  {
    WriteJSONSteps(code, data);
    var c := if Encodable(data) then code else StatusInternalServerError;
    var d := if Encodable(data) then data else InternalError;
    var acts := [SetHeader(ContentType, ApplicationJson), WriteHeader(c), Write(d)];
    assert acts[..2][..1] == [SetHeader(ContentType, ApplicationJson)];
    RunOne(SetHeader(ContentType, ApplicationJson), w);
  }

  /** errorResponse wraps its argument in the `{"errors": ...}` envelope. */
  lemma ErrorResponseEnvelope(code: int, errs: Data)
    ensures Encodable(errs) ==>
      ErrorResponse(code, errs)
      == [SetHeader(ContentType, ApplicationJson), WriteHeader(code), Write(Single("errors", errs))]
  {
    EncodableSingle("errors", errs);
    assert ErrorResponse(code, errs) == WriteJSONWith(code, Single("errors", errs), 0);
  }

  /** After k failed writes the writer has received the caller's code followed by k
      codes 500, and the only body delivered is the internal-error envelope. */
  lemma {:induction false} FailedWritesResponse(code: int, data: Data, k: nat, w: Response)
    requires Encodable(data) && k > 0
    ensures Run(WriteJSONWith(code, data, k), w).codes == w.codes + [code] + Repeat(StatusInternalServerError, k)
    ensures Run(WriteJSONWith(code, data, k), w).body == w.body + [InternalError]
    decreases k
  {
    var w1 := AfterHead(code, data, k, w);
    var r := Run(WriteJSONWith(StatusInternalServerError, InternalError, k - 1), w1);
    var rest := Repeat(StatusInternalServerError, k - 1);
    assert Repeat(StatusInternalServerError, k) == [StatusInternalServerError] + rest;
    if k == 1 {
      OneFailedWrite(w1);
      assert rest == [];
    } else {
      FailedWritesResponse(StatusInternalServerError, InternalError, k - 1, w1);
    }
    assert r.codes == w1.codes + [StatusInternalServerError] + rest;
    assert w1.codes + [StatusInternalServerError] + rest == w.codes + [code] + ([StatusInternalServerError] + rest);
  }

  /** Replaying writeJSON after a failed write is replaying the envelope into the writer
      that has received the content type and the caller's code. */
  lemma AfterHead(code: int, data: Data, k: nat, w: Response) returns (w1: Response)
    requires Encodable(data) && k > 0
    ensures w1.codes == w.codes + [code] && w1.body == w.body
    ensures Run(WriteJSONWith(code, data, k), w) == Run(WriteJSONWith(StatusInternalServerError, InternalError, k - 1), w1)
  {
    var head := [SetHeader(ContentType, ApplicationJson), WriteHeader(code)];
    FailedWriteSteps(code, data, k);
    RunAppend(head, WriteJSONWith(StatusInternalServerError, InternalError, k - 1), w);
    w1 := Run(head, w);
    HeadSteps(code, w);
  }

  /** The last envelope, once its write succeeds. */
  lemma OneFailedWrite(w: Response)
    ensures Run(WriteJSONWith(StatusInternalServerError, InternalError, 0), w).codes == w.codes + [StatusInternalServerError]
    ensures Run(WriteJSONWith(StatusInternalServerError, InternalError, 0), w).body == w.body + [InternalError]
  {
    WriteJSONResponse(StatusInternalServerError, InternalError, w);
  }

  /** However many writes fail, the client sees the caller's code: the status line is
      committed by writeJSON's first WriteHeader, and the codes 500 sent by the
      errorResponse calls after it change nothing. */
  lemma ClientSeesCallerCode(code: int, data: Data, k: nat)
    requires Encodable(data)
    ensures Status(Run(WriteJSONWith(code, data, k), Blank)) == code
  {
    var acts := WriteJSONWith(code, data, k);
    assert acts == [acts[0]] + [WriteHeader(code)] + acts[2..];
    HeaderFirst([acts[0]], code, acts[2..]);
  }

  /** A failed write is followed by errorResponse's internal-error envelope. */
  lemma FailedWriteSteps(code: int, data: Data, k: nat)
    requires Encodable(data) && k > 0
    ensures WriteJSONWith(code, data, k)
      == [SetHeader(ContentType, ApplicationJson), WriteHeader(code)]
         + WriteJSONWith(StatusInternalServerError, InternalError, k - 1)
  {
  }

  /** The two steps before writeJSON's body: one more code, no body. */
  lemma HeadSteps(code: int, w: Response)
    ensures Run([SetHeader(ContentType, ApplicationJson), WriteHeader(code)], w).codes == w.codes + [code]
    ensures Run([SetHeader(ContentType, ApplicationJson), WriteHeader(code)], w).body == w.body
  {
    var head := [SetHeader(ContentType, ApplicationJson), WriteHeader(code)];
    assert head[..1] == [SetHeader(ContentType, ApplicationJson)];
    RunOne(SetHeader(ContentType, ApplicationJson), w);
  }

  function Repeat(x: int, n: nat): seq<int>
  {
    if n == 0 then [] else [x] + Repeat(x, n - 1)
  }

  /** The media type readJSON compares: the text before the first ';', trimmed, in lower case. */
  function MediaType(ct: string): (m: string)
    ensures |m| <= |ct|
  {
    ToLower(TrimSpace(BeforeFirst(ct, ';')))
  }

  /** A media type holds no ';', no ASCII capital, and no white space at either end. */
  lemma MediaTypeShape(ct: string)
    ensures ';' !in MediaType(ct)
    ensures forall i :: 0 <= i < |MediaType(ct)| ==> !IsUpperAscii(MediaType(ct)[i])
    ensures MediaType(ct) == "" || (!IsSpace(MediaType(ct)[0]) && !IsSpace(MediaType(ct)[|MediaType(ct)| - 1]))
  {
    var b := BeforeFirst(ct, ';');
    var t := TrimSpace(b);
    var m := ToLower(t);
    TrimSpaceShape(b);
    IndexOfSpec(ct, ';');
    assert ';' !in b;
    assert forall i :: 0 <= i < |t| ==> t[i] != ';';
    forall i | 0 <= i < |m|
      ensures m[i] != ';' && !IsUpperAscii(m[i])
    {
      if IsSpace(t[i]) {
      } else {
        LowerKeepsNonSpace(t[i]);
      }
    }
    if m != "" {
      LowerKeepsNonSpace(t[0]);
      LowerKeepsNonSpace(t[|t| - 1]);
    }
  }

  /** One outcome of json.Decoder.Decode: a value, an error with its message, or io.EOF. */
  datatype Decoded = Decoded(value: Data) | DecodeError(msg: string) | EOF

  /** The outcome of the next Decode call when outcomes are still to come; at the end of
      the body the decoder returns io.EOF. */
  function Next(pending: seq<Decoded>): Decoded
  {
    if pending == [] then EOF else pending[0]
  }

  function Rest(pending: seq<Decoded>): seq<Decoded>
  {
    if pending == [] then [] else pending[1..]
  }

  /** The text of a decoding failure; io.EOF reads "EOF". */
  function DecodeMessage(d: Decoded): string
  {
    match d
    case DecodeError(msg) => msg
    case _ => "EOF"
  }

  /** A json.Decoder over the request body, given by the outcomes of its successive Decode calls. */
  class Decoder {
    var pending: seq<Decoded>

    constructor (outcomes: seq<Decoded>)
      ensures pending == outcomes
    {
      pending := outcomes;
    }

    method Decode() returns (d: Decoded)
      modifies this
      ensures d == Next(old(pending)) && pending == Rest(old(pending))
    {
      if pending == [] {
        d := EOF;
      } else {
        d := pending[0];
        pending := pending[1..];
      }
    }
  }

  const NotJson: MalformedRequest := MalformedRequest(StatusUnsupportedMediaType, "Content-Type header is not application/json")
  const NotSingle: MalformedRequest := MalformedRequest(StatusBadRequest, "Request body must only contain a single JSON object")

  /** Whether readJSON accepts the Content-Type header value ct: absent, or of media type JSON. */
  predicate AcceptsContentType(ct: string)
  {
    ct == "" || MediaType(ct) == ApplicationJson
  }

  /** The error readJSON returns for Content-Type ct and decoder outcomes pending (None for nil). */
  function ReadError(ct: string, pending: seq<Decoded>): (e: Option<MalformedRequest>)
    ensures e.Some? ==> e.value.status == StatusBadRequest || e.value.status == StatusUnsupportedMediaType
    ensures e.None? <==> AcceptsContentType(ct) && Next(pending).Decoded? && Next(Rest(pending)) == EOF
  {
    if !AcceptsContentType(ct) then Some(NotJson)
    else if !Next(pending).Decoded? then Some(MalformedRequest(StatusBadRequest, DecodeMessage(Next(pending))))
    else if Next(Rest(pending)) != EOF then Some(NotSingle)
    else None
  }

  /** How many Decode calls it makes. */
  function DecodeCalls(ct: string, pending: seq<Decoded>): nat
  {
    if !AcceptsContentType(ct) then 0 else if !Next(pending).Decoded? then 1 else 2
  }

  /** readJSON(w, r, dst): returns the error (None for nil) and what was decoded into dst. */
  method ReadJSON(r: Request, dec: Decoder) returns (dst: Option<Data>, err: Option<MalformedRequest>)
    modifies dec
    ensures err == ReadError(Get(r.header, ContentType), old(dec.pending))
    ensures dst == (if DecodeCalls(Get(r.header, ContentType), old(dec.pending)) > 0 && Next(old(dec.pending)).Decoded?
                    then Some(Next(old(dec.pending)).value) else None)
    ensures DecodeCalls(Get(r.header, ContentType), old(dec.pending)) == 0 ==> dec.pending == old(dec.pending)
    ensures DecodeCalls(Get(r.header, ContentType), old(dec.pending)) == 1 ==> dec.pending == Rest(old(dec.pending))
    ensures DecodeCalls(Get(r.header, ContentType), old(dec.pending)) == 2 ==> dec.pending == Rest(Rest(old(dec.pending)))
  {
    dst := None;
    var ct := Get(r.header, ContentType);
    if ct != "" {
      var mediaType := ToLower(TrimSpace(BeforeFirst(ct, ';')));
      if mediaType != ApplicationJson {
        err := Some(NotJson);
        return;
      }
    }
    var first := dec.Decode();
    if !first.Decoded? {
      err := Some(MalformedRequest(StatusBadRequest, DecodeMessage(first)));
      return;
    }
    dst := Some(first.value);
    var second := dec.Decode();
    if second != EOF {
      err := Some(NotSingle);
      return;
    }
    err := None;
  }

  /** An unsupported media type is reported as 415, before the body is read. */
  lemma UnsupportedMediaType(ct: string, pending: seq<Decoded>)
    ensures (ReadError(ct, pending) == Some(NotJson)) <==> (ct != "" && MediaType(ct) != ApplicationJson)
    ensures ReadError(ct, pending) == Some(NotJson) ==> DecodeCalls(ct, pending) == 0
  {
  }

  /** An empty Content-Type skips the media-type check entirely. */
  lemma EmptyContentTypeSkipsCheck(pending: seq<Decoded>)
    ensures ReadError("", pending) == ReadError(ApplicationJson, pending)
  {
    MediaTypeOfJson();
  }

  lemma MediaTypeOfJson()
    ensures MediaType(ApplicationJson) == ApplicationJson
  {
    MediaTypeUnchanged(ApplicationJson);
  }

  /** A value that is already a bare lower-case media type is its own media type. */
  lemma MediaTypeUnchanged(s: string)
    requires ';' !in s
    requires s == "" || (!IsSpace(s[0]) && !IsSpace(s[|s| - 1]))
    requires forall i :: 0 <= i < |s| ==> LowerChar(s[i]) == s[i]
    ensures MediaType(s) == s
  {
    BeforeFirstAbsent(s, ';');
    TrimSpaceUnchanged(s);
    ToLowerUnchanged(s);
  }

  /** Success read off the body's outcomes: an empty or JSON Content-Type, a value first,
      then nothing or io.EOF; a successful readJSON calls Decode twice. */
  lemma ReadSucceedsIff(ct: string, pending: seq<Decoded>)
    ensures ReadError(ct, pending) == None <==>
      (ct == "" || MediaType(ct) == ApplicationJson)
      && |pending| >= 1 && pending[0].Decoded? && (|pending| == 1 || pending[1] == EOF)
    ensures ReadError(ct, pending) == None ==> DecodeCalls(ct, pending) == 2
  {
  }

  /** With an acceptable type, a failing first Decode gives 400 with the decoder's message,
      and any second outcome but io.EOF gives 400 with the single-object message. */
  lemma BadBodyIs400(ct: string, pending: seq<Decoded>)
    requires AcceptsContentType(ct)
    ensures !Next(pending).Decoded? ==>
      ReadError(ct, pending) == Some(MalformedRequest(StatusBadRequest, DecodeMessage(Next(pending))))
    ensures Next(pending).Decoded? && Next(Rest(pending)) != EOF ==> ReadError(ct, pending) == Some(NotSingle)
    ensures ReadError(ct, pending).Some? ==> ReadError(ct, pending).value.status == StatusBadRequest
  {
  }

  /** An empty body is a 400 whose message is "EOF". */
  lemma EmptyBody(ct: string)
    requires AcceptsContentType(ct)
    ensures ReadError(ct, []) == Some(MalformedRequest(StatusBadRequest, "EOF"))
  {
  }


  /** A media type with white space on either side, followed by parameters, reads as the
      media type in lower case. */
  lemma MediaTypeOfParts(ct: string, pre: string, core: string, pad: string, params: string)
    requires ct == pre + core + pad + ";" + params
    requires ';' !in core && core != "" && !IsSpace(core[0]) && !IsSpace(core[|core| - 1])
    requires forall i :: 0 <= i < |pre| ==> IsSpace(pre[i])
    requires forall i :: 0 <= i < |pad| ==> IsSpace(pad[i])
    ensures MediaType(ct) == ToLower(core)
  {
    TrimmedBeforeFirst(pre, core, pad, ';', params);
  }

  /** Whatever follows the first ';' does not matter. */
  lemma MediaTypeIgnoresParameters(t: string, params: string)
    requires ';' !in t
    ensures MediaType(t + ";" + params) == MediaType(t)
  {
    BeforeFirstAppend(t, ';', params);
    BeforeFirstAbsent(t, ';');
  }

  /** A JSON media type padded with white space on either side, before its parameters, is accepted. */
  lemma JsonWithParametersAccepted(ct: string, pre: string, core: string, pad: string, params: string)
    requires ct == pre + core + pad + ";" + params
    requires ';' !in core && core != "" && !IsSpace(core[0]) && !IsSpace(core[|core| - 1])
    requires ToLower(core) == ApplicationJson
    requires forall i :: 0 <= i < |pre| ==> IsSpace(pre[i])
    requires forall i :: 0 <= i < |pad| ==> IsSpace(pad[i])
    ensures AcceptsContentType(ct)
  {
    MediaTypeOfParts(ct, pre, core, pad, params);
  }

  lemma ExampleCore(core: string)
    requires core == "Application/JSON"
    ensures ';' !in core && core != "" && !IsSpace(core[0]) && !IsSpace(core[|core| - 1])
    ensures ToLower(core) == ApplicationJson
  {
    ToLowerMatches(core, ApplicationJson);
  }

  lemma ExampleParts(ct: string, pre: string, core: string, pad: string, params: string)
    requires ct == " Application/JSON ; charset=utf-8" && pre == " " && core == "Application/JSON" && pad == " " && params == " charset=utf-8"
    ensures ct == pre + core + pad + ";" + params
    ensures forall i :: 0 <= i < |pre| ==> IsSpace(pre[i])
    ensures forall i :: 0 <= i < |pad| ==> IsSpace(pad[i])
  {
    assert pre + core == " Application/JSON";
    assert pad + ";" + params == " ; charset=utf-8";
    assert ct == (pre + core) + (pad + ";" + params);
  }

  /** Letter case, the spaces around the type and the charset parameter do not matter. */
  lemma MediaTypeExample()
    ensures AcceptsContentType(" Application/JSON ; charset=utf-8")
  {
    ExampleParts(" Application/JSON ; charset=utf-8", " ", "Application/JSON", " ", " charset=utf-8");
    ExampleCore("Application/JSON");
    JsonWithParametersAccepted(" Application/JSON ; charset=utf-8", " ", "Application/JSON", " ", " charset=utf-8");
  }
}
