/** The wire records of the JSON-RPC 2.0 server core: requests, responses,
    error objects and the values that flow through a call. JSON itself is
    abstracted: a parameter is the raw bytes of one element of `params`, and
    a value is whatever a decoder or a handler produced. */
module Protocol {
  import opened Wrappers
  import Decimal

  /** An octet of the request stream. */
  type Byte = b: int | 0 <= b < 256

  type Bytes = seq<Byte>

  /** The name of a Go type, as reflection reports it. */
  type TypeName = string

  /** A dynamic value (a `reflect.Value` or an `interface{}`): nil, a non-nil
      Go `error` (known by the text its `Error()` method returns), or any
      other datum, identified abstractly. */
  datatype Value = Nil | ErrorValue(message: string) | Datum(id: int)

  /** One still-encoded element of the request's `params` array. */
  datatype Param = Param(data: Bytes)

  /** A request envelope; `id == None` marks a notification. */
  datatype Request = Request(jsonrpc: string, id: Option<int>, methodName: string, params: seq<Param>)

  /** What `var req request` holds before anything is decoded into it. */
  const ZeroRequest: Request := Request("", None, "", [])

  const ProtocolVersion: string := "2.0"

  /** Codes of the reserved JSON-RPC 2.0 range used by the dispatcher
      (their Go constants live outside handler.go). */
  const ParseErrorCode: int := -32700
  const MethodNotFoundCode: int := -32601
  const InvalidParamsCode: int := -32602

  /** The single code every handler-reported error is collapsed to. */
  const HandlerErrorCode: int := 1

  const ReservedPrefix: string := "RPC error ("
  const ReservedInfix: string := "): "

  /** The error object of a response. */
  datatype RespError = RespError(code: int, message: string) {

    /** Codes from -32768 to -32000 are reserved by the protocol. */
    predicate Reserved() {
      -32768 <= code <= -32000
    }

    /** `respError.Error()`: a reserved code is shown in front of the
        message, any other code is dropped. */
    function Error(): (s: string)
      ensures !Reserved() ==> s == message
      ensures Reserved() ==> |s| > |ReservedPrefix| + |ReservedInfix| + |message|
      ensures Reserved() ==> s[..|ReservedPrefix|] == ReservedPrefix
      ensures Reserved() ==> s[|s| - |message|..] == message
    {
      if Reserved() then
        ReservedPrefix + Decimal.IntToString(code) + ReservedInfix + message
      else
        message
    }
  }

  /** A response envelope. `result == Nil` stands for the absent field
      (`omitempty` on a nil interface); `error == None` for a nil pointer. */
  datatype Response = Response(jsonrpc: string, result: Value, id: int, error: Option<RespError>)

  /** The rendering of a reserved error keeps both its code and its
      message: two reserved errors that print alike are the same error. */
  lemma {:induction false} ReservedErrorDetermined(a: RespError, b: RespError)
    requires a.Reserved() && b.Reserved()
    requires a.Error() == b.Error()
    ensures a == b
  {
    var da, db := Decimal.IntToString(a.code), Decimal.IntToString(b.code);
    var s := a.Error();
    var p := |ReservedPrefix|;
    assert s == ReservedPrefix + da + ReservedInfix + a.message;
    assert s == ReservedPrefix + db + ReservedInfix + b.message;
    // The code's digits end at the first ')' after the prefix.
    assert s[p + |da|] == ')';
    assert s[p + |db|] == ')';
    assert da == s[p..p + |da|] == db;
    Decimal.IntToStringInjective(a.code, b.code);
    assert a.message == s[p + |da| + |ReservedInfix|..] == b.message;
  }

  /** The codes the dispatcher reports are distinct reserved codes, so their
      rendering names the code; the handler code is outside the range, so a
      handler's error renders as its bare message. */
  lemma DispatcherCodesReserved(message: string)
    ensures RespError(ParseErrorCode, message).Reserved()
    ensures RespError(MethodNotFoundCode, message).Reserved()
    ensures RespError(InvalidParamsCode, message).Reserved()
    ensures ParseErrorCode != MethodNotFoundCode && ParseErrorCode != InvalidParamsCode
    ensures MethodNotFoundCode != InvalidParamsCode
    ensures RespError(HandlerErrorCode, message).Error() == message
  {
  }
}
