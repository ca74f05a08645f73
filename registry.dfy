/** Registration: each method of a handler object becomes an invocation
    descriptor stored under `namespace + "." + name`. Reflection is
    abstracted: a method is described by its input types (input 0 is the
    receiver) and by the return positions that `processFuncOut` picks. */
module Registry {
  import opened Protocol

  /** The type `context.Context`, compared against input 1. */
  const ContextType: TypeName := "context.Context"

  /** One method of the handler object, as reflection sees it. `valOut` and
      `errOut` are the indices `processFuncOut` returns (-1 when absent). */
  datatype MethodSig = MethodSig(
    name: string,
    inputs: seq<TypeName>,
    func: Value,
    valOut: int,
    errOut: int)

  /** `rpcHandler`: what dispatch needs to know about one method. */
  datatype Descriptor = Descriptor(
    paramReceivers: seq<TypeName>,
    nParams: int,
    receiver: Value,
    handlerFunc: Value,
    hasCtx: int,
    errOut: int,
    valOut: int)

  /** The shape every registered descriptor has. */
  predicate WellFormed(d: Descriptor) {
    && (d.hasCtx == 0 || d.hasCtx == 1)
    && d.nParams == |d.paramReceivers|
  }

  predicate WellFormedTable(table: map<string, Descriptor>) {
    forall k :: k in table ==> WellFormed(table[k])
  }

  /** Reflection always lists the receiver as input 0. */
  predicate HasReceiver(m: MethodSig) {
    |m.inputs| >= 1
  }

  /** The key a method is stored under. */
  function Key(namespace: string, name: string): (k: string)
    ensures |k| == |namespace| + 1 + |name|
    ensures k[..|namespace|] == namespace && k[|namespace|] == '.'
    ensures k[|namespace| + 1..] == name
  {
    namespace + "." + name
  }

  /** Within one namespace, distinct method names give distinct keys. */
  lemma KeyInjective(namespace: string, a: string, b: string)
    requires Key(namespace, a) == Key(namespace, b)
    ensures a == b
  {
    assert a == Key(namespace, a)[|namespace| + 1..];
  }

  /** The descriptor `register` builds for one method. */
  function DescriptorFor(receiver: Value, m: MethodSig): (d: Descriptor)
    requires HasReceiver(m)
    ensures WellFormed(d)
    ensures d.hasCtx == 1 <==> |m.inputs| >= 2 && m.inputs[1] == ContextType
    ensures d.nParams == |m.inputs| - 1 - d.hasCtx
    ensures forall i :: 0 <= i < d.nParams ==> d.paramReceivers[i] == m.inputs[i + 1 + d.hasCtx]
    ensures d.receiver == receiver && d.handlerFunc == m.func
    ensures d.errOut == m.errOut && d.valOut == m.valOut
  {
    var hasCtx := if |m.inputs| >= 2 && m.inputs[1] == ContextType then 1 else 0;
    Descriptor(m.inputs[1 + hasCtx..], |m.inputs| - 1 - hasCtx, receiver, m.func, hasCtx, m.errOut, m.valOut)
  }

  /** The inner loop of `register`: the parameter types, skipping the
      receiver and, when present, the context. */
  method ParamReceivers(inputs: seq<TypeName>, hasCtx: int) returns (recvs: seq<TypeName>)
    requires hasCtx == 0 || hasCtx == 1
    requires |inputs| >= 1 + hasCtx
    ensures |recvs| == |inputs| - 1 - hasCtx
    ensures forall i :: 0 <= i < |recvs| ==> recvs[i] == inputs[i + 1 + hasCtx]
  {
    var ins := |inputs| - 1 - hasCtx;
    var a := new TypeName[ins];
    var i := 0;
    while i < ins
      invariant 0 <= i <= ins
      invariant forall j :: 0 <= j < i ==> a[j] == inputs[j + 1 + hasCtx]
    {
      a[i] := inputs[i + 1 + hasCtx];
      i := i + 1;
    }
    recvs := a[..];
  }

  /** The descriptor assembled field by field from the context test and the
      receiver types is the one `DescriptorFor` describes. */
  lemma DescriptorAssembled(receiver: Value, m: MethodSig, hasCtx: int, recvs: seq<TypeName>)
    requires HasReceiver(m)
    requires hasCtx == (if |m.inputs| >= 2 && m.inputs[1] == ContextType then 1 else 0)
    requires |recvs| == |m.inputs| - 1 - hasCtx
    requires forall i :: 0 <= i < |recvs| ==> recvs[i] == m.inputs[i + 1 + hasCtx]
    ensures Descriptor(recvs, |m.inputs| - 1 - hasCtx, receiver, m.func, hasCtx, m.errOut, m.valOut) == DescriptorFor(receiver, m)
  {
    assert recvs == m.inputs[1 + hasCtx..];
  }

  /** The table after registering `methods` one after the other on top of
      `table`: each insertion overwrites whatever the key held before. */
  function Registered(table: map<string, Descriptor>, namespace: string, receiver: Value, methods: seq<MethodSig>): (t: map<string, Descriptor>)
    requires forall m <- methods :: HasReceiver(m)
    ensures WellFormedTable(table) ==> WellFormedTable(t)
    decreases |methods|
  {
    if methods == [] then table
    else
      var last := methods[|methods| - 1];
      Registered(table, namespace, receiver, methods[..|methods| - 1])[Key(namespace, last.name) := DescriptorFor(receiver, last)]
  }

  /** Registering one more method is one more insertion. */
  lemma RegisteredStep(table: map<string, Descriptor>, namespace: string, receiver: Value, methods: seq<MethodSig>, i: nat)
    requires forall m <- methods :: HasReceiver(m)
    requires i < |methods|
    ensures Registered(table, namespace, receiver, methods[..i + 1]) ==
            Registered(table, namespace, receiver, methods[..i])[Key(namespace, methods[i].name) := DescriptorFor(receiver, methods[i])]
  {
    assert methods[..i + 1][..i] == methods[..i];
  }

  /** Registration adds exactly the keys of the registered methods. */
  lemma {:induction false} RegisteredKeys(table: map<string, Descriptor>, namespace: string, receiver: Value, methods: seq<MethodSig>, k: string)
    requires forall m <- methods :: HasReceiver(m)
    ensures k in Registered(table, namespace, receiver, methods) <==>
            k in table || exists j :: 0 <= j < |methods| && k == Key(namespace, methods[j].name)
    decreases |methods|
  {
    if methods != [] {
      var front := methods[..|methods| - 1];
      RegisteredKeys(table, namespace, receiver, front, k);
      if exists j :: 0 <= j < |front| && k == Key(namespace, front[j].name) {
        var j :| 0 <= j < |front| && k == Key(namespace, front[j].name);
        assert methods[j] == front[j];
      }
      if exists j :: 0 <= j < |methods| && k == Key(namespace, methods[j].name) {
        var j :| 0 <= j < |methods| && k == Key(namespace, methods[j].name);
        if j < |front| {
          assert front[j] == methods[j];
        }
      }
    }
  }

  /** A key that no registered method maps to keeps its old entry (or
      stays absent). */
  lemma {:induction false} RegisteredOtherKeysUnchanged(table: map<string, Descriptor>, namespace: string, receiver: Value, methods: seq<MethodSig>, k: string)
    requires forall m <- methods :: HasReceiver(m)
    requires forall j :: 0 <= j < |methods| ==> k != Key(namespace, methods[j].name)
    ensures k in Registered(table, namespace, receiver, methods) <==> k in table
    ensures k in table ==> Registered(table, namespace, receiver, methods)[k] == table[k]
    decreases |methods|
  {
    if methods != [] {
      var front := methods[..|methods| - 1];
      assert forall j :: 0 <= j < |front| ==> front[j] == methods[j];
      RegisteredOtherKeysUnchanged(table, namespace, receiver, front, k);
    }
  }

  /** The entry of a registered method is its descriptor, whatever the
      table held under that key before, provided no later method of the
      same registration has the same name (Go's method names are unique). */
  lemma {:induction false} RegisteredEntry(table: map<string, Descriptor>, namespace: string, receiver: Value, methods: seq<MethodSig>, j: nat)
    requires forall m <- methods :: HasReceiver(m)
    requires j < |methods|
    requires forall l :: j < l < |methods| ==> methods[l].name != methods[j].name
    ensures Key(namespace, methods[j].name) in Registered(table, namespace, receiver, methods)
    ensures Registered(table, namespace, receiver, methods)[Key(namespace, methods[j].name)] == DescriptorFor(receiver, methods[j])
    decreases |methods|
  {
    var front := methods[..|methods| - 1];
    var last := methods[|methods| - 1];
    if j < |methods| - 1 {
      assert front[j] == methods[j];
      RegisteredEntry(table, namespace, receiver, front, j);
      if Key(namespace, last.name) == Key(namespace, methods[j].name) {
        KeyInjective(namespace, last.name, methods[j].name);
        assert false;
      }
    }
  }
}
