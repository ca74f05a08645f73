/** The `handlers` map of handler.go as an object: `Register` fills it in
    place, `Handle` and `HandleReader` only read it. */
module Handlers {
  import opened Wrappers
  import opened Protocol
  import opened Registry
  import opened Dispatcher

  /** The tail of `handle` for a request with an id: start from version
      and id, set the error from the error output when it is non-nil, then
      set the result from the value output. A bad index or a non-error
      value in the error position is a Go runtime panic. */
  method BuildResponse(handler: Descriptor, id: int, callResult: seq<Value>) returns (reply: Reply)
    ensures reply == ShapeResponse(handler, id, callResult)
  {
    var resp := Response(ProtocolVersion, Nil, id, None);
    if handler.errOut != -1 {
      if !(0 <= handler.errOut < |callResult|) {
        return Panicked;
      }
      var err := callResult[handler.errOut];
      if err != Nil {
        if !err.ErrorValue? {
          return Panicked;
        }
        resp := resp.(error := Some(RespError(HandlerErrorCode, err.message)));
      }
    }
    if handler.valOut != -1 {
      if !(0 <= handler.valOut < |callResult|) {
        return Panicked;
      }
      resp := resp.(result := callResult[handler.valOut]);
    }
    reply := Wrote(resp);
  }

  class Handlers {
    var table: map<string, Descriptor>

    /** Every entry was built by `Register`. */
    ghost predicate Valid()
      reads this
    {
      WellFormedTable(table)
    }

    constructor ()
      ensures Valid() && table == map[]
    {
      table := map[];
    }

    /** `register`: one entry per method, under `namespace + "." + name`,
        overwriting what the key held; other keys are untouched. */
    method Register(namespace: string, receiver: Value, methods: seq<MethodSig>)
      requires Valid()
      requires forall m <- methods :: HasReceiver(m)
      modifies this
      ensures Valid()
      ensures table == Registered(old(table), namespace, receiver, methods)
    {
      var i := 0;
      while i < |methods|
        invariant 0 <= i <= |methods|
        invariant Valid()
        invariant table == Registered(old(table), namespace, receiver, methods[..i])
      {
        var m := methods[i];
        assert m in methods;
        var hasCtx := 0;
        if |m.inputs| >= 2 && m.inputs[1] == ContextType {
          hasCtx := 1;
        }
        var recvs := ParamReceivers(m.inputs, hasCtx);
        var d := Descriptor(recvs, |m.inputs| - 1 - hasCtx, receiver, m.func, hasCtx, m.errOut, m.valOut);
        DescriptorAssembled(receiver, m, hasCtx, recvs);
        table := table[Key(namespace, m.name) := d];
        RegisteredStep(old(table), namespace, receiver, methods, i);
        i := i + 1;
      }
      assert methods[..|methods|] == methods;
    }

    /** `handle`: dispatch one decoded request. */
    method Handle(
      ctx: Value, req: Request,
      decode: (Param, TypeName) -> Result<Value, string>,
      invoke: (Value, seq<Value>) -> seq<Value>)
      returns (out: Outcome)
      requires Valid()
      ensures out == Dispatch(table, ctx, req, decode, invoke)
    {
      if req.methodName !in table {
        out := Outcome(0, None, Reported(MethodNotFoundCode, req, "method '" + req.methodName + "' not found"));
        return;
      }
      var handler := table[req.methodName];

      if |req.params| != handler.nParams {
        out := Outcome(0, None, Reported(InvalidParamsCode, req, "wrong param count"));
        return;
      }

      var callParams := new Value[1 + handler.hasCtx + handler.nParams];
      callParams[0] := handler.receiver;
      if handler.hasCtx == 1 {
        callParams[1] := ctx;
      }

      var i := 0;
      while i < handler.nParams
        invariant 0 <= i <= handler.nParams
        invariant callParams[0] == handler.receiver
        invariant handler.hasCtx == 1 ==> callParams[1] == ctx
        invariant forall j :: 0 <= j < i ==> decode(req.params[j], handler.paramReceivers[j]).Success?
        invariant forall j :: 0 <= j < i ==>
                    callParams[j + 1 + handler.hasCtx] == decode(req.params[j], handler.paramReceivers[j]).value
      {
        var rp := decode(req.params[i], handler.paramReceivers[i]);
        if rp.Failure? {
          ParamDecodeFailureStops(table, ctx, req, decode, invoke, i, rp.error);
          out := Outcome(i + 1, None, Reported(ParseErrorCode, req, rp.error));
          return;
        }
        callParams[i + 1 + handler.hasCtx] := rp.value;
        i := i + 1;
      }

      DecodeParamsSuccess(handler.paramReceivers, req.params, decode);
      var values := DecodeParams(handler.paramReceivers, req.params, decode).value;
      var args := callParams[..];
      CallArgsBySlots(handler, ctx, values, args);

      DispatchCalls(table, ctx, req, decode, invoke);

      var callResult := invoke(handler.handlerFunc, args);
      if req.id.None? {
        out := Outcome(handler.nParams, Some(args), Silent);  // notification
        return;
      }

      var reply := BuildResponse(handler, req.id.value, callResult);
      out := Outcome(handler.nParams, Some(args), reply);
    }

    /** `handleReader`: decode the envelope, then dispatch it. */
    method HandleReader(
      ctx: Value, input: Bytes,
      decodeEnvelope: Bytes -> (Request, Option<string>),
      decode: (Param, TypeName) -> Result<Value, string>,
      invoke: (Value, seq<Value>) -> seq<Value>)
      returns (out: Outcome)
      requires Valid()
      ensures out == DispatchReader(table, ctx, input, decodeEnvelope, decode, invoke)
    {
      var (req, err) := decodeEnvelope(input);
      if err.Some? {
        out := Outcome(0, None, Reported(ParseErrorCode, req, err.value));
        return;
      }
      out := Handle(ctx, req, decode, invoke);
    }
  }
}
