/** Concrete dispatches against a handler registered under "math" whose
    methods are `Add(a, b int) (int, error)` and
    `Divide(a, b int) (int, error)`. Parameters are one ASCII digit each; the
    decoder accepts a digit for an `int` parameter. */
module Scenarios {
  import opened Wrappers
  import opened Protocol
  import opened Registry
  import opened Dispatcher

  const Receiver: Value := Datum(0)
  const Ctx: Value := Datum(-1)

  const AddSig: MethodSig := MethodSig("Add", ["*math.Service", "int", "int"], Datum(1), 0, 1)
  const DivSig: MethodSig := MethodSig("Divide", ["*math.Service", "int", "int"], Datum(2), 0, 1)

  /** The descriptors registration gives both methods: two `int`
      parameters, no context, value at return 0 and error at return 1. */
  const AddDescriptor: Descriptor := Descriptor(["int", "int"], 2, Receiver, Datum(1), 0, 1, 0)
  const DivDescriptor: Descriptor := Descriptor(["int", "int"], 2, Receiver, Datum(2), 0, 1, 0)

  const MathTable: map<string, Descriptor> := map["math.Add" := AddDescriptor, "math.Divide" := DivDescriptor]

  lemma MathTableWellFormed()
    ensures WellFormedTable(MathTable)
  {
  }

  /** Registering `Add` alone stores its descriptor under "math.Add". */
  lemma RegisterAdd()
    ensures Registered(map[], "math", Receiver, [AddSig]) == map["math.Add" := AddDescriptor]
  {
    assert [AddSig][..0] == [];
    assert AddSig.inputs[1..] == ["int", "int"];
    assert Key("math", "Add") == "math.Add";
  }

  /** Registering `Divide` after `Add` adds its descriptor under "math.Divide". */
  lemma RegisterDivideAfterAdd()
    ensures Registered(map[], "math", Receiver, [AddSig, DivSig])
            == Registered(map[], "math", Receiver, [AddSig])["math.Divide" := DivDescriptor]
  {
    assert [AddSig, DivSig][..1] == [AddSig];
    assert DivSig.inputs[1..] == ["int", "int"];
    assert Key("math", "Divide") == "math.Divide";
  }

  /** Registering the two methods under "math" in an empty table gives
      exactly `MathTable`. */
  lemma MathTableRegistered()
    ensures Registered(map[], "math", Receiver, [AddSig, DivSig]) == MathTable
  {
    RegisterAdd();
    RegisterDivideAfterAdd();
  }

  /** A one-digit JSON number decodes into an `int`; nothing else does. */
  function DecodeDigit(p: Param, t: TypeName): Result<Value, string> {
    if t == "int" && |p.data| == 1 && 48 <= p.data[0] <= 57 then Success(Datum(p.data[0] - 48))
    else Failure("invalid character")
  }

  /** Add returns the sum and a nil error; Divide returns 0 and an error when
      dividing by zero. */
  function CallMath(f: Value, args: seq<Value>): seq<Value> {
    if |args| == 3 && args[1].Datum? && args[2].Datum? then
      if f == Datum(1) then [Datum(args[1].id + args[2].id), Nil]
      else if args[2].id == 0 then [Datum(0), ErrorValue("division by zero")]
      else [Datum(args[1].id / args[2].id), Nil]
    else []
  }

  function Call(id: Option<int>, name: string, params: seq<Param>): Request {
    Request("2.0", id, name, params)
  }

  /** Two digit parameters decode, in order, into the numbers they show. */
  lemma DecodeTwoDigits(a: Byte, b: Byte)
    requires 48 <= a <= 57 && 48 <= b <= 57
    ensures DecodeParams(["int", "int"], [Param([a]), Param([b])], DecodeDigit)
            == Success([Datum(a - 48), Datum(b - 48)])
  {
    var last := DecodeParams(["int"], [Param([b])], DecodeDigit);
    assert ["int"][1..] == [] && [Param([b])][1..] == [];
    assert DecodeDigit(Param([b]), "int") == Success(Datum(b - 48));
    assert DecodeParams(["int"][1..], [Param([b])][1..], DecodeDigit) == Success([]);
    assert [Datum(b - 48)] + [] == [Datum(b - 48)];
    assert last == Success([Datum(b - 48)]);
    assert ["int", "int"][1..] == ["int"] && [Param([a]), Param([b])][1..] == [Param([b])];
    assert DecodeDigit(Param([a]), "int") == Success(Datum(a - 48));
    assert [Datum(a - 48)] + [Datum(b - 48)] == [Datum(a - 48), Datum(b - 48)];
  }

  /** `{"id":1,"method":"math.Add","params":[2,3]}` gets result 5 and no error. */
  lemma AddTwoAndThree()
    ensures Dispatch(MathTable, Ctx, Call(Some(1), "math.Add", [Param([50]), Param([51])]), DecodeDigit, CallMath)
            == Outcome(2, Some([Receiver, Datum(2), Datum(3)]), Wrote(Response("2.0", Datum(5), 1, None)))
  {
    MathTableWellFormed();
    DecodeTwoDigits(50, 51);
    DispatchCalls(MathTable, Ctx, Call(Some(1), "math.Add", [Param([50]), Param([51])]), DecodeDigit, CallMath);
    var args := CallArgs(AddDescriptor, Ctx, [Datum(2), Datum(3)]);
    assert args == [Receiver, Datum(2), Datum(3)];
    assert CallMath(AddSig.func, args) == [Datum(5), Nil];
  }

  /** An unregistered method is reported as method-not-found. */
  lemma SubtractNotFound()
    ensures var out := Dispatch(MathTable, Ctx, Call(Some(1), "math.Subtract", [Param([50]), Param([51])]), DecodeDigit, CallMath);
            out.reply.Reported? && out.reply.code == MethodNotFoundCode && out.call == None
  {
    MathTableWellFormed();
    MethodNotFoundFirst(MathTable, Ctx, Call(Some(1), "math.Subtract", [Param([50]), Param([51])]), DecodeDigit, CallMath);
  }

  /** One parameter for a two-parameter method is reported as invalid params. */
  lemma AddWithOneParam()
    ensures var req := Call(Some(1), "math.Add", [Param([50])]);
            Dispatch(MathTable, Ctx, req, DecodeDigit, CallMath).reply
            == Reported(InvalidParamsCode, req, "wrong param count")
  {
    MathTableWellFormed();
  }

  /** A parameter that is not a digit stops dispatch at that parameter. */
  lemma AddWithBadSecondParam()
    ensures var req := Call(Some(1), "math.Add", [Param([50]), Param([120])]);
            Dispatch(MathTable, Ctx, req, DecodeDigit, CallMath)
            == Outcome(2, None, Reported(ParseErrorCode, req, "invalid character"))
  {
    MathTableWellFormed();
    ParamDecodeFailureStops(MathTable, Ctx, Call(Some(1), "math.Add", [Param([50]), Param([120])]), DecodeDigit, CallMath, 1, "invalid character");
  }

  /** A handler error is reported with code 1 and its text, and the value
      output (here 0) is sent alongside it in `result`. */
  lemma DivideByZero()
    ensures Dispatch(MathTable, Ctx, Call(Some(7), "math.Divide", [Param([50]), Param([48])]), DecodeDigit, CallMath).reply
            == Wrote(Response("2.0", Datum(0), 7, Some(RespError(1, "division by zero"))))
  {
    MathTableWellFormed();
    DecodeTwoDigits(50, 48);
    DispatchCalls(MathTable, Ctx, Call(Some(7), "math.Divide", [Param([50]), Param([48])]), DecodeDigit, CallMath);
  }

  /** A request without an id calls the handler and writes nothing. */
  lemma AddNotification()
    ensures var out := Dispatch(MathTable, Ctx, Call(None, "math.Add", [Param([50]), Param([51])]), DecodeDigit, CallMath);
            out.call == Some([Receiver, Datum(2), Datum(3)]) && out.reply == Silent
  {
    MathTableWellFormed();
    DecodeTwoDigits(50, 51);
    DispatchCalls(MathTable, Ctx, Call(None, "math.Add", [Param([50]), Param([51])]), DecodeDigit, CallMath);
    assert CallArgs(AddDescriptor, Ctx, [Datum(2), Datum(3)]) == [Receiver, Datum(2), Datum(3)];
  }
}
