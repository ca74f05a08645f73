/** Dispatch of one request against the table, as a reference definition.
    Decoding and invocation are parameters: `decode` turns one raw
    parameter into a value of the named type or fails with a message, and
    `invoke` calls a handler function with its argument list and returns
    its results. */
module Dispatcher {
  import opened Wrappers
  import opened Protocol
  import opened Registry

  /** Which parameter failed to decode, and the decoder's message. */
  datatype ParamError = ParamError(index: nat, message: string)

  /** What `handle` sends back through `w`. */
  datatype Reply =
    | Silent                                           // notification: nothing written
    | Reported(code: int, req: Request, err: string)   // one call of the `rpcError` callback
    | Wrote(resp: Response)                            // one encoded response
    | Panicked                                         // a Go runtime panic while shaping the response

  /** The observable result of dispatching one request: how many
      parameters were handed to the decoder, the argument list of the
      handler call if there was one, and the reply. */
  datatype Outcome = Outcome(decodeCalls: nat, call: Option<seq<Value>>, reply: Reply)

  /** Decode the parameters in order, stopping at the first failure. */
  function DecodeParams(types: seq<TypeName>, params: seq<Param>, decode: (Param, TypeName) -> Result<Value, string>): (r: Result<seq<Value>, ParamError>)
    requires |types| == |params|
    ensures r.Success? ==> |r.value| == |params|
    ensures r.Failure? ==> r.error.index < |params|
    decreases |params|
  {
    if params == [] then Success([])
    else match decode(params[0], types[0])
      case Failure(e) => Failure(ParamError(0, e))
      case Success(v) =>
        match DecodeParams(types[1..], params[1..], decode)
        case Success(vs) => Success([v] + vs)
        case Failure(pe) => Failure(ParamError(pe.index + 1, pe.message))
  }

  /** Decoding succeeds exactly when every parameter decodes, and then
      yields the decoded values in order. */
  lemma {:induction false} DecodeParamsSuccess(types: seq<TypeName>, params: seq<Param>, decode: (Param, TypeName) -> Result<Value, string>)
    requires |types| == |params|
    ensures DecodeParams(types, params, decode).Success? <==>
            forall i :: 0 <= i < |params| ==> decode(params[i], types[i]).Success?
    ensures DecodeParams(types, params, decode).Success? ==>
            forall i :: 0 <= i < |params| ==> DecodeParams(types, params, decode).value[i] == decode(params[i], types[i]).value
    decreases |params|
  {
    if params != [] {
      DecodeParamsSuccess(types[1..], params[1..], decode);
      assert forall i :: 1 <= i < |params| ==> params[1..][i - 1] == params[i] && types[1..][i - 1] == types[i];
    }
  }

  /** A failure names the first parameter that does not decode: all
      earlier ones decode and that one fails with the reported message. */
  lemma {:induction false} DecodeParamsFirstFailure(types: seq<TypeName>, params: seq<Param>, decode: (Param, TypeName) -> Result<Value, string>)
    requires |types| == |params|
    requires DecodeParams(types, params, decode).Failure?
    ensures var pe := DecodeParams(types, params, decode).error;
            && (forall j :: 0 <= j < pe.index ==> decode(params[j], types[j]).Success?)
            && decode(params[pe.index], types[pe.index]) == Failure(pe.message)
    decreases |params|
  {
    if decode(params[0], types[0]).Success? {
      DecodeParamsFirstFailure(types[1..], params[1..], decode);
      assert forall j :: 1 <= j < |params| ==> params[1..][j - 1] == params[j] && types[1..][j - 1] == types[j];
    }
  }

  /** Conversely, the first parameter that fails is the one reported. */
  lemma DecodeParamsFailsAt(types: seq<TypeName>, params: seq<Param>, decode: (Param, TypeName) -> Result<Value, string>, i: nat, e: string)
    requires |types| == |params| && i < |params|
    requires forall j :: 0 <= j < i ==> decode(params[j], types[j]).Success?
    requires decode(params[i], types[i]) == Failure(e)
    ensures DecodeParams(types, params, decode) == Failure(ParamError(i, e))
  {
    DecodeParamsSuccess(types, params, decode);
    assert DecodeParams(types, params, decode).Failure?;
    DecodeParamsFirstFailure(types, params, decode);
    var pe := DecodeParams(types, params, decode).error;
    assert decode(params[pe.index], types[pe.index]).Failure?;
    assert !(pe.index < i);
    assert !(i < pe.index);
  }

  /** The argument list of the handler call: receiver, then the context if
      the method takes one, then the decoded parameters. */
  function CallArgs(d: Descriptor, ctx: Value, values: seq<Value>): (args: seq<Value>)
    requires WellFormed(d) && |values| == d.nParams
    ensures |args| == 1 + d.hasCtx + d.nParams
    ensures args[0] == d.receiver
    ensures d.hasCtx == 1 ==> args[1] == ctx
    ensures forall i :: 0 <= i < d.nParams ==> args[i + 1 + d.hasCtx] == values[i]
  {
    [d.receiver] + (if d.hasCtx == 1 then [ctx] else []) + values
  }

  /** An argument list that has the receiver, the context and the decoded
      parameters in the slots `CallArgs` promises is that list. */
  lemma CallArgsBySlots(d: Descriptor, ctx: Value, values: seq<Value>, args: seq<Value>)
    requires WellFormed(d) && |values| == d.nParams
    requires |args| == 1 + d.hasCtx + d.nParams
    requires args[0] == d.receiver
    requires d.hasCtx == 1 ==> args[1] == ctx
    requires forall i :: 0 <= i < d.nParams ==> args[i + 1 + d.hasCtx] == values[i]
    ensures args == CallArgs(d, ctx, values)
  {
    var c := CallArgs(d, ctx, values);
    forall k | 0 <= k < |args|
      ensures args[k] == c[k]
    {
      if k > d.hasCtx {
        assert args[(k - 1 - d.hasCtx) + 1 + d.hasCtx] == values[k - 1 - d.hasCtx];
      }
    }
  }

  /** Whether a return position holds a usable error (`nil` or an error). */
  predicate ErrorSlotOk(results: seq<Value>, k: int) {
    0 <= k < |results| && !results[k].Datum?
  }

  /** The response built from the handler's results for a request with an
      id. The error field and the result field are filled independently. */
  function ShapeResponse(d: Descriptor, id: int, results: seq<Value>): (reply: Reply)
    ensures reply.Silent? == false && reply.Reported? == false
    ensures reply.Wrote? <==>
            (d.errOut == -1 || ErrorSlotOk(results, d.errOut)) &&
            (d.valOut == -1 || 0 <= d.valOut < |results|)
  {
    if d.errOut != -1 && !ErrorSlotOk(results, d.errOut) then Panicked
    else if d.valOut != -1 && !(0 <= d.valOut < |results|) then Panicked
    else
      var err := if d.errOut != -1 && results[d.errOut].ErrorValue?
                 then Some(RespError(HandlerErrorCode, results[d.errOut].message))
                 else None;
      var result := if d.valOut != -1 then results[d.valOut] else Nil;
      Wrote(Response(ProtocolVersion, result, id, err))
  }

  /** `handle`: look the method up, check the arity, decode the
      parameters, call the handler, and answer unless it is a notification. */
  function Dispatch(
    table: map<string, Descriptor>, ctx: Value, req: Request,
    decode: (Param, TypeName) -> Result<Value, string>,
    invoke: (Value, seq<Value>) -> seq<Value>): (out: Outcome)
    requires WellFormedTable(table)
  {
    if req.methodName !in table then
      Outcome(0, None, Reported(MethodNotFoundCode, req, "method '" + req.methodName + "' not found"))
    else
      var d := table[req.methodName];
      if |req.params| != d.nParams then
        Outcome(0, None, Reported(InvalidParamsCode, req, "wrong param count"))
      else
        match DecodeParams(d.paramReceivers, req.params, decode)
        case Failure(pe) =>
          Outcome(pe.index + 1, None, Reported(ParseErrorCode, req, pe.message))
        case Success(values) =>
          var args := CallArgs(d, ctx, values);
          var results := invoke(d.handlerFunc, args);
          if req.id.None? then Outcome(d.nParams, Some(args), Silent)
          else Outcome(d.nParams, Some(args), ShapeResponse(d, req.id.value, results))
  }

  /** `handleReader`: an envelope that does not decode is reported as a
      parse error against whatever the decoder left in the request. */
  function DispatchReader(
    table: map<string, Descriptor>, ctx: Value, input: Bytes,
    decodeEnvelope: Bytes -> (Request, Option<string>),
    decode: (Param, TypeName) -> Result<Value, string>,
    invoke: (Value, seq<Value>) -> seq<Value>): (out: Outcome)
    requires WellFormedTable(table)
    ensures decodeEnvelope(input).1.Some? ==>
            out == Outcome(0, None, Reported(ParseErrorCode, decodeEnvelope(input).0, decodeEnvelope(input).1.value))
    ensures decodeEnvelope(input).1.None? ==> out == Dispatch(table, ctx, decodeEnvelope(input).0, decode, invoke)
  {
    var (req, err) := decodeEnvelope(input);
    if err.Some? then Outcome(0, None, Reported(ParseErrorCode, req, err.value))
    else Dispatch(table, ctx, req, decode, invoke)
  }

  // ---------------------------------------------------------------------
  // Properties of dispatch

  /** Once every check has passed, the handler is called with the decoded
      parameters and the reply depends only on the id and its results. */
  lemma DispatchCalls(
    table: map<string, Descriptor>, ctx: Value, req: Request,
    decode: (Param, TypeName) -> Result<Value, string>,
    invoke: (Value, seq<Value>) -> seq<Value>)
    requires WellFormedTable(table)
    requires req.methodName in table
    requires |req.params| == table[req.methodName].nParams
    requires DecodeParams(table[req.methodName].paramReceivers, req.params, decode).Success?
    ensures var d := table[req.methodName];
            var args := CallArgs(d, ctx, DecodeParams(d.paramReceivers, req.params, decode).value);
            Dispatch(table, ctx, req, decode, invoke) ==
              Outcome(d.nParams, Some(args),
                      if req.id.None? then Silent else ShapeResponse(d, req.id.value, invoke(d.handlerFunc, args)))
  {
  }

  /** An unknown method is reported before anything else happens: no
      arity check, no decoding, no call. */
  lemma MethodNotFoundFirst(
    table: map<string, Descriptor>, ctx: Value, req: Request,
    decode: (Param, TypeName) -> Result<Value, string>,
    invoke: (Value, seq<Value>) -> seq<Value>)
    requires WellFormedTable(table)
    requires req.methodName !in table
    ensures var out := Dispatch(table, ctx, req, decode, invoke);
            && out.reply == Reported(MethodNotFoundCode, req, "method '" + req.methodName + "' not found")
            && out.decodeCalls == 0 && out.call == None
  {
  }

  /** A known method with the wrong number of parameters is reported as
      invalid params before any parameter is decoded, and not called. */
  lemma WrongArityBeforeDecoding(
    table: map<string, Descriptor>, ctx: Value, req: Request,
    decode: (Param, TypeName) -> Result<Value, string>,
    invoke: (Value, seq<Value>) -> seq<Value>)
    requires WellFormedTable(table)
    requires req.methodName in table && |req.params| != table[req.methodName].nParams
    ensures var out := Dispatch(table, ctx, req, decode, invoke);
            && out.reply == Reported(InvalidParamsCode, req, "wrong param count")
            && out.decodeCalls == 0 && out.call == None
  {
  }

  /** The first parameter that fails to decode is reported as a parse
      error with the decoder's message; no later parameter is decoded and
      the handler is not called. */
  lemma ParamDecodeFailureStops(
    table: map<string, Descriptor>, ctx: Value, req: Request,
    decode: (Param, TypeName) -> Result<Value, string>,
    invoke: (Value, seq<Value>) -> seq<Value>,
    i: nat, e: string)
    requires WellFormedTable(table)
    requires req.methodName in table
    requires var d := table[req.methodName];
             && |req.params| == d.nParams && i < d.nParams
             && (forall j :: 0 <= j < i ==> decode(req.params[j], d.paramReceivers[j]).Success?)
             && decode(req.params[i], d.paramReceivers[i]) == Failure(e)
    ensures Dispatch(table, ctx, req, decode, invoke) == Outcome(i + 1, None, Reported(ParseErrorCode, req, e))
  {
    var d := table[req.methodName];
    DecodeParamsFailsAt(d.paramReceivers, req.params, decode, i, e);
  }

  /** The handler is called exactly when the method exists, the arity
      matches and every parameter decodes; every error report means it was
      not called. */
  lemma InvokedIffAllChecksPass(
    table: map<string, Descriptor>, ctx: Value, req: Request,
    decode: (Param, TypeName) -> Result<Value, string>,
    invoke: (Value, seq<Value>) -> seq<Value>)
    requires WellFormedTable(table)
    ensures var out := Dispatch(table, ctx, req, decode, invoke);
            out.call.Some? <==>
              && req.methodName in table
              && |req.params| == table[req.methodName].nParams
              && forall i :: 0 <= i < |req.params| ==> decode(req.params[i], table[req.methodName].paramReceivers[i]).Success?
    ensures var out := Dispatch(table, ctx, req, decode, invoke);
            out.reply.Reported? <==> out.call.None?
  {
    if req.methodName in table {
      var d := table[req.methodName];
      if |req.params| == d.nParams {
        DecodeParamsSuccess(d.paramReceivers, req.params, decode);
      }
    }
  }

  /** When the handler is called, its argument list has 1 + hasCtx +
      nParams slots: the receiver, the context when the method takes one,
      and decoded parameter i at slot i + 1 + hasCtx. */
  lemma CallArgumentLayout(
    table: map<string, Descriptor>, ctx: Value, req: Request,
    decode: (Param, TypeName) -> Result<Value, string>,
    invoke: (Value, seq<Value>) -> seq<Value>)
    requires WellFormedTable(table)
    requires Dispatch(table, ctx, req, decode, invoke).call.Some?
    ensures req.methodName in table
    ensures var d, args := table[req.methodName], Dispatch(table, ctx, req, decode, invoke).call.value;
            && |args| == 1 + d.hasCtx + d.nParams
            && args[0] == d.receiver
            && (d.hasCtx == 1 ==> args[1] == ctx)
            && forall i :: 0 <= i < d.nParams ==>
                 decode(req.params[i], d.paramReceivers[i]).Success? &&
                 args[i + 1 + d.hasCtx] == decode(req.params[i], d.paramReceivers[i]).value
  {
    var d := table[req.methodName];
    DecodeParamsSuccess(d.paramReceivers, req.params, decode);
  }

  /** Nothing is written for a notification, whatever the handler
      returned; a request with an id is never silent. */
  lemma SilentExactlyForNotifications(
    table: map<string, Descriptor>, ctx: Value, req: Request,
    decode: (Param, TypeName) -> Result<Value, string>,
    invoke: (Value, seq<Value>) -> seq<Value>)
    requires WellFormedTable(table)
    ensures var out := Dispatch(table, ctx, req, decode, invoke);
            out.reply == Silent <==> out.call.Some? && req.id == None
  {
  }

  /** A written response carries version "2.0" and the request's id; its
      error is set (code 1, the error's text) exactly when the error output
      exists and is non-nil, and its result is the value output whenever
      one is declared, whether or not the error is set. */
  lemma WrittenResponseShape(
    table: map<string, Descriptor>, ctx: Value, req: Request,
    decode: (Param, TypeName) -> Result<Value, string>,
    invoke: (Value, seq<Value>) -> seq<Value>)
    requires WellFormedTable(table)
    requires Dispatch(table, ctx, req, decode, invoke).reply.Wrote?
    ensures req.methodName in table && req.id.Some?
    ensures Dispatch(table, ctx, req, decode, invoke).call.Some?
    ensures var out := Dispatch(table, ctx, req, decode, invoke);
            var d, resp := table[req.methodName], out.reply.resp;
            var results := invoke(d.handlerFunc, out.call.value);
            && resp.jsonrpc == "2.0"
            && resp.id == req.id.value
            && (resp.error.Some? <==> d.errOut != -1 && results[d.errOut].ErrorValue?)
            && (resp.error.Some? ==> resp.error.value == RespError(HandlerErrorCode, results[d.errOut].message))
            && resp.result == (if d.valOut != -1 then results[d.valOut] else Nil)
  {
  }

  /** Error and result are not exclusive: a handler that returns a
      non-nil value together with a non-nil error gets a response carrying
      both. */
  lemma ErrorDoesNotSuppressResult(d: Descriptor, id: int, results: seq<Value>)
    requires 0 <= d.errOut < |results| && 0 <= d.valOut < |results|
    requires results[d.errOut].ErrorValue? && results[d.valOut] != Nil
    ensures ShapeResponse(d, id, results).Wrote?
    ensures var resp := ShapeResponse(d, id, results).resp;
            resp.error == Some(RespError(HandlerErrorCode, results[d.errOut].message)) && resp.result != Nil
  {
  }
}
