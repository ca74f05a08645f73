# go-jsonrpc method dispatch, modelled in Dafny

This project models the dispatch core of a small JSON-RPC 2.0 server written
in Go (`handler.go`). The core has three parts:

- **Registration** (`handlers.register`). Every method of a handler object
  becomes an invocation descriptor (`rpcHandler`). The descriptor holds the
  parameter types, the parameter count, a 0/1 context flag and the positions
  of the error and value returns. It is stored in the `handlers` map under
  `namespace + "." + name`.
- **Dispatch** (`handlers.handleReader`, `handlers.handle`). Dispatch runs
  these steps in order, stopping at the first failure:
  1. decode the request envelope;
  2. look up the method;
  3. check the parameter count;
  4. decode each parameter;
  5. lay out the call arguments;
  6. call the handler;
  7. write nothing for a notification;
  8. otherwise shape and write the response.
- **Error rendering** (`respError.Error`). A code in the reserved range
  -32768..-32000 is shown in front of the message; any other code is dropped.

Reflection and JSON are abstracted away:

- A method is described by its input types, its function value and the
  return positions that `processFuncOut` picks (`Registry.MethodSig`).
- Decoding one parameter is a function parameter
  `decode: (Param, TypeName) -> Result<Value, string>`.
- Decoding the envelope is a function parameter that returns the request,
  possibly only partly filled, together with an optional error text.
- Calling the handler is a function parameter
  `invoke: (Value, seq<Value>) -> seq<Value>`.

One dispatch gives a `Dispatcher.Outcome` with three parts:

- how many parameters were handed to the decoder;
- the handler's argument list, if the handler was called;
- the reply. This is one of: nothing written (`Silent`); one call of the
  error callback with code, request and error text (`Reported`); one response
  handed to the encoder (`Wrote`); or a Go runtime panic while shaping the
  response (`Panicked`).

Layout:

- `wrappers.dfy`: `Option` and `Result`.
- `decimal.dfy`: Go's `%d` rendering, with a parser that reads it back.
- `protocol.dfy`: request, response, error object, values and codes.
- `registry.dfy`: descriptors, `DescriptorFor`, the `ParamReceivers` loop and
  the `Registered` fold with its lemmas.
- `dispatch.dfy`: `Dispatch`, the reference definition of `handle`, and its
  lemmas.
- `handlers.dfy`: the class `Handlers`, which holds the mutable table. Its
  methods `Register`, `Handle` and `HandleReader` are written imperatively,
  as in the source, and are proved against the functions above.
- `scenarios.dfy`: concrete registrations and requests against a `math`
  handler.

Two behaviours of the code are worth stating, because a reader might
expect otherwise. The model follows the code in both:

- **Error and result are not exclusive.** Section 5 of the JSON-RPC 2.0
  specification says a response carries either `result` or `error`, never
  both. The code (handler.go:149-160) fills `Result` from the value return
  even after `Error` was set. `Result` is an `interface{}`, so `omitempty`
  does not drop a zero value. A handler returning `(0, err)` therefore
  answers with both fields. See `Dispatcher.ErrorDoesNotSuppressResult`
  and `Scenarios.DivideByZero`.
- **Envelope decode errors.** A request that fails to decode is reported
  against whatever `json.Decoder` left in `req` (handler.go:98-101). It may
  be the zero request or a partly filled one. The envelope decoder returns
  that partial request.

The error codes `rpcParseError`, `rpcMethodNotFound` and `rpcInvalidParams`
are defined outside handler.go. The model uses the values from section 5.1
of the JSON-RPC 2.0 specification: -32700, -32601 and -32602.

## Model

| member | source | states |
|---|---|---|
| `Protocol.RespError.Error` | handler.go:41-46 | A code outside -32768..-32000 renders as the bare message. A reserved code renders as a string that starts with "RPC error (", ends with the message and is longer than prefix, separator and message together. |
| `Protocol.ReservedErrorDetermined` | handler.go:41-44 | The reserved rendering loses nothing: two reserved errors that render alike have the same code and the same message. |
| `Protocol.DispatcherCodesReserved` | handler.go:149-157 | The three codes the dispatcher reports are distinct and reserved, so their rendering names the code. A handler error (code 1) renders as its bare message. |
| `Decimal.IntToStringRoundTrip` | handler.go:43 | The `%d` text of the code reads back as the same integer. |
| `Decimal.IntToString` | handler.go:43 | The `%d` text is non-empty, starts with '-' exactly for negative numbers and contains no ')', so the closing parenthesis ends the code. |
| `Registry.DescriptorFor` | handler.go:62-89 | The descriptor of a method: hasCtx is 1 exactly when there are at least 2 inputs and input 1 is `context.Context`, otherwise 0. nParams = NumIn - 1 - hasCtx. paramReceivers has nParams entries and entry i is input i + 1 + hasCtx. Receiver, function and both output indices are copied. |
| `Registry.ParamReceivers` | handler.go:70-74 | The loop filling `recvs` returns NumIn - 1 - hasCtx types; entry i is input i + 1 + hasCtx. |
| `Registry.Key` | handler.go:78 | The key is the namespace, then '.', then the method name. |
| `Registry.KeyInjective` | handler.go:78 | Within one namespace, distinct method names give distinct keys. |
| `Registry.Registered` | handler.go:61-90 | Registering methods into a table of well-formed descriptors keeps every descriptor well-formed. |
| `Registry.RegisteredKeys` | handler.go:61-90 | After registration a key is present exactly when it was present before or is `namespace + "." + name` of a registered method. |
| `Registry.RegisteredOtherKeysUnchanged` | handler.go:61-90 | A key that no registered method maps to keeps its previous entry, or stays absent. |
| `Registry.RegisteredEntry` | handler.go:78-89 | A registered method's key holds that method's descriptor, overwriting any earlier entry under the same key. |
| `Handlers.Handlers.Register` | handler.go:57-91 | The in-place loop leaves the table equal to `Registered(old table, ...)` and keeps every entry well-formed. |
| `Dispatcher.DecodeParams` | handler.go:125-133 | Decoding the parameters in order either yields one value per parameter or names a failing index inside the list. |
| `Dispatcher.DecodeParamsSuccess` | handler.go:125-133 | Decoding succeeds exactly when every parameter decodes. Value i is then the decoder's value for parameter i. |
| `Dispatcher.DecodeParamsFirstFailure` | handler.go:125-131 | On a failure, every earlier parameter decodes and the named parameter fails with the reported message. |
| `Dispatcher.DecodeParamsFailsAt` | handler.go:125-131 | Conversely, the first parameter that fails is the one reported, with its message. |
| `Dispatcher.CallArgs` | handler.go:119-133 | The argument list has 1 + hasCtx + nParams slots: receiver at 0, context at 1 when hasCtx = 1, decoded parameter i at i + 1 + hasCtx. |
| `Dispatcher.CallArgsBySlots` | handler.go:119-133 | A list that has those values in those slots is exactly the argument list, so every slot is filled. |
| `Dispatcher.ShapeResponse` | handler.go:144-160 | The response is written exactly when each declared output index is inside the results and the error output holds nil or an error. Otherwise shaping panics. It never reports an error through the callback and is never silent. |
| `Handlers.BuildResponse` | handler.go:144-160 | The field-by-field construction of `resp` is `ShapeResponse`. |
| `Dispatcher.DispatchReader` | handler.go:97-105 | If the envelope fails to decode, a parse error is reported against the partly decoded request and nothing else happens. Otherwise the result is that of dispatching the decoded request. |
| `Handlers.Handlers.HandleReader` | handler.go:97-105 | The method computes `DispatchReader`. |
| `Handlers.Handlers.Handle` | handler.go:107-166 | The early returns, the decoding loop and the call compute `Dispatch`. So every lemma below about `Dispatch` holds of `handle`. |
| `Dispatcher.DispatchCalls` | handler.go:119-160 | Once all checks pass, the handler is called with `CallArgs` of the decoded values. The reply is silent for a notification and otherwise the shaped response. |
| `Dispatcher.MethodNotFoundFirst` | handler.go:108-112 | An unknown method is reported as method-not-found with the text "method '<name>' not found". No arity check, no decoding and no call happen. |
| `Dispatcher.WrongArityBeforeDecoding` | handler.go:114-117 | A known method with the wrong parameter count is reported as invalid params. No parameter is decoded and the handler is not called. |
| `Dispatcher.ParamDecodeFailureStops` | handler.go:125-131 | When parameter i is the first to fail, the outcome is a parse error with the decoder's message. Exactly i + 1 parameters were decoded and the handler was not called. |
| `Dispatcher.InvokedIffAllChecksPass` | handler.go:107-137 | The handler is called exactly when the method exists, the count matches and every parameter decodes. The error callback is used exactly when the handler is not called. |
| `Dispatcher.CallArgumentLayout` | handler.go:119-133 | When the handler is called, its arguments are the receiver, then the context when hasCtx = 1, then decoded parameter i at slot i + 1 + hasCtx. |
| `Dispatcher.SilentExactlyForNotifications` | handler.go:137-140 | Nothing is written exactly when the handler was called for a request without an id, whatever it returned. |
| `Dispatcher.WrittenResponseShape` | handler.go:144-160 | A written response has jsonrpc "2.0" and the request's id. Its error is set (code 1, the error's text) exactly when the error output exists and is non-nil. Its result is the value output whenever one is declared, whether or not the error is set. |
| `Dispatcher.ErrorDoesNotSuppressResult` | handler.go:149-160 | A non-nil error together with a non-nil value output gives a response that carries both error and result. |
| `Scenarios.MathTableRegistered` | handler.go:57-91 | Registering `Add` and `Divide` under "math" in an empty table gives exactly the two expected descriptors under "math.Add" and "math.Divide". |
| `Scenarios.AddTwoAndThree` | handler.go:107-166 | `{"id":1,"method":"math.Add","params":[2,3]}` calls Add with (receiver, 2, 3) and writes result 5 with id 1 and no error. |
| `Scenarios.SubtractNotFound` | handler.go:108-112 | An unregistered "math.Subtract" is reported as method-not-found, and nothing is called. |
| `Scenarios.AddWithOneParam` | handler.go:114-117 | "math.Add" with one parameter is reported as invalid params. |
| `Scenarios.AddWithBadSecondParam` | handler.go:125-131 | A non-digit second parameter stops dispatch with a parse error after two decodes, and nothing is called. |
| `Scenarios.DivideByZero` | handler.go:149-160 | A handler error is written with code 1 and its text, and the value return 0 is written alongside it as `result`. |
| `Scenarios.AddNotification` | handler.go:137-140 | Without an id, Add is called with (receiver, 2, 3) and nothing is written. |

## Left out

- Go reflection (`reflect.ValueOf`, `NumMethod`, `Method`, `reflect.New`, `Func.Call`). A handler object is given as its receiver value and the sequence of its methods. Each method records its input types, its function value and the output indices.
- `processFuncOut` is not part of this model. Each method's `valOut` and `errOut` are taken as given, with -1 for absent.
- The value of `contextType` is defined outside handler.go. It is modelled as the type name `context.Context`.
- `encoding/json` decoding and encoding. Decoders are function parameters. A written response is the `Response` record handed to the encoder.
- Encoding failures and their logging with `fmt.Println` (handler.go:162-165). These cannot change what was dispatched.
- `io.Reader`/`io.Writer` plumbing, and the output format of the caller's `rpcErrFunc`. A call of that callback is recorded as its code, request and error text.
- The error texts produced by `encoding/json` are whatever the decoder parameter returns.
- Panics raised inside a handler. `invoke` is a total function, so a handler that panics is not represented.
- A result list that disagrees with the function's declared outputs cannot occur in Go. It is represented only as the `Panicked` reply.
- Request ids are `int64` in Go and unbounded integers here. The dispatcher only copies the id, so no wrap-around can occur.
- Context cancellation, and any concurrent use of the table.
- `Registry.Registered`, `Handlers.Handlers.Register`: these require every method to have a receiver input (NumIn >= 1). Reflection always supplies one; Go would panic on `make` with a negative length otherwise.
