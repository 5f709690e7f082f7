// The context managers that patch attributes while a layer is traced and put them back
// afterwards. Entering may be interrupted at any point, and so may the body.
module UndoLog {
  import opened Options

  // Attribute values are only compared for identity.
  type Value = nat

  const TRUE_VALUE: Value := 1

  // An attribute of an object, or an entry of a module's `_parameters` dictionary.
  datatype Slot = Attr(obj: nat, name: string) | Param(obj: nat, name: string)

  // What the instances hold themselves.
  type Instances = map<Slot, Value>

  function Lookup(inst: Instances, slot: Slot): Option<Value> {
    if slot in inst then Some(inst[slot]) else None
  }

  // getattr: the instance first, then its class.
  function Get(inst: Instances, cls: Instances, slot: Slot): Option<Value> {
    if slot in inst then Some(inst[slot]) else Lookup(cls, slot)
  }

  // One entry of a `restores` list.
  datatype Undo = Undo(slot: Slot, value: Value, existed: bool)

  // One step of a `finally` block. Only the layernorm manager (exact) knows whether the
  // attribute was the instance's own.
  function UndoOne(inst: Instances, u: Undo, exact: bool): Instances {
    if u.existed || !exact then inst[u.slot := u.value] else inst - {u.slot}
  }

  // The whole `finally` block: the list in reverse.
  function UndoAll(inst: Instances, log: seq<Undo>, exact: bool): Instances
    decreases |log|
  {
    if log == [] then inst else UndoAll(UndoOne(inst, log[|log| - 1], exact), log[..|log| - 1], exact)
  }

  function Slots(log: seq<Undo>): set<Slot> {
    set u | u in log :: u.slot
  }

  // The entry tells what `inst` held.
  predicate Records(u: Undo, inst: Instances, cls: Instances) {
    && Get(inst, cls, u.slot) == Some(u.value)
    && (u.existed <==> u.slot in inst)
  }

  // The first entry for each slot tells what the instances held before anything was patched.
  ghost predicate Faithful(log: seq<Undo>, inst0: Instances, cls: Instances) {
    forall i :: 0 <= i < |log| && log[i].slot !in Slots(log[..i]) ==> Records(log[i], inst0, cls)
  }

  // How one slot stands after the managers are left: back to its old value; and back to living
  // where it lived, unless the manager could not know.
  ghost predicate PutBack(inst: Instances, inst0: Instances, cls: Instances, slot: Slot, exact: bool) {
    && Get(inst, cls, slot) == Get(inst0, cls, slot)
    && (Lookup(inst, slot) == Lookup(inst0, slot) <==> exact || slot in inst0)
  }

  // A faithful entry puts its slot back; how a slot stands depends on that slot alone.
  lemma UndoOnePutsBack(inst: Instances, u: Undo, inst0: Instances, cls: Instances, exact: bool, after: Instances)
    requires Records(u, inst0, cls)
    requires Lookup(after, u.slot) == Lookup(UndoOne(inst, u, exact), u.slot)
    ensures PutBack(after, inst0, cls, u.slot, exact)
  {
  }

  lemma SlotsOfPrefix(log: seq<Undo>)
    requires log != []
    ensures Slots(log) == Slots(log[..|log| - 1]) + {log[|log| - 1].slot}
  {
    assert log == log[..|log| - 1] + [log[|log| - 1]];
  }

  lemma FaithfulPrefix(log: seq<Undo>, inst0: Instances, cls: Instances)
    requires Faithful(log, inst0, cls) && log != []
    ensures Faithful(log[..|log| - 1], inst0, cls)
    ensures log[|log| - 1].slot !in Slots(log[..|log| - 1]) ==> Records(log[|log| - 1], inst0, cls)
  {
    var before := log[..|log| - 1];
    forall i | 0 <= i < |before| && before[i].slot !in Slots(before[..i]) ensures Records(before[i], inst0, cls) {
      assert before[..i] == log[..i];
    }
  }

  // Undoing puts back every slot of the log, repeated or not, whatever happened to it in between,
  // and touches no other slot.
  lemma {:induction false} UndoPutsBack(inst: Instances, log: seq<Undo>, inst0: Instances, cls: Instances, exact: bool, slot: Slot)
    requires Faithful(log, inst0, cls)
    ensures slot in Slots(log) ==> PutBack(UndoAll(inst, log, exact), inst0, cls, slot, exact)
    ensures slot !in Slots(log) ==> Lookup(UndoAll(inst, log, exact), slot) == Lookup(inst, slot)
    decreases |log|
  {
    if log != [] {
      var n := |log| - 1;
      FaithfulPrefix(log, inst0, cls);
      SlotsOfPrefix(log);
      UndoPutsBack(UndoOne(inst, log[n], exact), log[..n], inst0, cls, exact, slot);
      if slot == log[n].slot && slot !in Slots(log[..n]) {
        UndoOnePutsBack(inst, log[n], inst0, cls, exact, UndoAll(inst, log, exact));
      }
    }
  }

  // Appending the current state of a slot keeps the log faithful.
  lemma AppendKeepsFaithful(log: seq<Undo>, inst0: Instances, cls: Instances, inst: Instances, u: Undo)
    requires Faithful(log, inst0, cls) && Records(u, inst, cls)
    requires u.slot !in Slots(log) ==> Lookup(inst, u.slot) == Lookup(inst0, u.slot)
    ensures Faithful(log + [u], inst0, cls)
  {
    var log' := log + [u];
    forall i | 0 <= i < |log'| && log'[i].slot !in Slots(log'[..i]) ensures Records(log'[i], inst0, cls) {
      if i < |log| {
        assert log'[..i] == log[..i];
      } else {
        assert log'[..i] == log;
      }
    }
  }

  // What the four managers look at. `native` gives the rotary modules that have a native path.
  datatype Layer = Layer(
    modules: seq<nat>,
    parameterNames: map<nat, seq<string>>,
    native: map<nat, Value>,
    gemmModules: seq<nat>,
    plain: set<Value>,
    asPlain: map<Value, Value>,
    defaultDispatch: Value)
  {
    // A plain copy is plain.
    ghost predicate WellFormed() {
      forall v :: v in asPlain ==> asPlain[v] in plain
    }
  }

  const STATIC_FORWARDS := ["_forward_static_no_residual", "_forward_static_with_residual"]
  const IS_COMPILED := "_is_compiled"
  const FORWARD_METHOD := "_forward_method"
  const DISPATCH := "dispatch_unquantized_gemm"

  datatype Kind = Layernorms | PlainParameters | NativeRotary | DefaultGemm

  // The managers in the order in which they are entered.
  const KINDS := [Layernorms, PlainParameters, NativeRotary, DefaultGemm]

  // Which manager deals with a slot; |KINDS| if none does.
  function Rank(slot: Slot): nat {
    match slot
    case Param(_, _) => 1
    case Attr(_, name) =>
      if name == STATIC_FORWARDS[0] || name == STATIC_FORWARDS[1] || name == IS_COMPILED then 0
      else if name == FORWARD_METHOD then 2
      else if name == DISPATCH then 3
      else 4
  }

  predicate Named(layer: Layer, obj: nat, name: string) {
    obj in layer.parameterNames && name in layer.parameterNames[obj]
  }

  // Whether its manager patches a slot, given what the instances and classes hold. The two static
  // forwards are static methods, so reading them from an instance gives the class's own value;
  // a method that is bound on access would always differ from it.
  predicate Wants(layer: Layer, inst: Instances, cls: Instances, slot: Slot) {
    match slot
    case Param(obj, name) =>
      && obj in layer.modules && Named(layer, obj, name)
      && slot in inst && inst[slot] !in layer.plain && inst[slot] in layer.asPlain
    case Attr(obj, name) =>
      if name == STATIC_FORWARDS[0] || name == STATIC_FORWARDS[1] then
        obj in layer.modules && slot in cls && Get(inst, cls, slot) != Some(cls[slot])
      else if name == IS_COMPILED then obj in layer.modules && Get(inst, cls, slot).Some?
      else if name == FORWARD_METHOD then
        obj in layer.modules && obj in layer.native && Get(inst, cls, slot).Some?
      else if name == DISPATCH then obj in layer.gemmModules && Get(inst, cls, slot).Some?
      else false
  }

  // The value that its manager gives a slot; a parameter gets the plain copy of what it holds.
  function Target(layer: Layer, inst: Instances, cls: Instances, slot: Slot): Value
    requires Wants(layer, inst, cls, slot)
  {
    match slot
    case Param(_, _) => layer.asPlain[inst[slot]]
    case Attr(obj, name) =>
      if name == STATIC_FORWARDS[0] || name == STATIC_FORWARDS[1] then cls[slot]
      else if name == IS_COMPILED then TRUE_VALUE
      else if name == FORWARD_METHOD then layer.native[obj]
      else layer.defaultDispatch
  }

  // What a slot holds when its manager has dealt with it, if it held `inst0` before.
  function Dealt(layer: Layer, inst0: Instances, cls: Instances, slot: Slot): Option<Value> {
    if Wants(layer, inst0, cls, slot) then Some(Target(layer, inst0, cls, slot)) else Lookup(inst0, slot)
  }

  // Whether and how a slot is to be patched depends on that slot alone.
  lemma WantsLocal(layer: Layer, a: Instances, b: Instances, cls: Instances, slot: Slot)
    ensures Lookup(a, slot) == Lookup(b, slot) ==>
              && (Wants(layer, a, cls, slot) <==> Wants(layer, b, cls, slot))
              && Dealt(layer, a, cls, slot) == Dealt(layer, b, cls, slot)
  {
  }

  // Patching a slot a second time does not change it.
  lemma DealtTwice(layer: Layer, inst0: Instances, inst: Instances, cls: Instances, slot: Slot)
    requires layer.WellFormed() && Wants(layer, inst0, cls, slot)
    requires Lookup(inst, slot) == Dealt(layer, inst0, cls, slot) && Wants(layer, inst, cls, slot)
    ensures Target(layer, inst, cls, slot) == Target(layer, inst0, cls, slot)
  {
  }

  lemma Ranks(obj: nat)
    ensures Rank(Attr(obj, IS_COMPILED)) == 0 && Rank(Attr(obj, FORWARD_METHOD)) == 2 && Rank(Attr(obj, DISPATCH)) == 3
  {
    assert |IS_COMPILED| == 12 && |FORWARD_METHOD| == 15 && |DISPATCH| == 25;
    assert |STATIC_FORWARDS[0]| == 27 && |STATIC_FORWARDS[1]| == 29;
  }

  class Store {
    var inst: Instances
    const cls: Instances

    constructor (inst: Instances, cls: Instances)
      ensures this.inst == inst && this.cls == cls
    {
      this.inst, this.cls := inst, cls;
    }
  }

  // One manager while it is active.
  class Manager {
    const store: Store
    const kind: Kind
    var restores: seq<Undo>
    ghost const inst0: Instances   // the instances when the manager was entered

    constructor (store: Store, kind: Kind)
      ensures this.store == store && this.kind == kind && restores == [] && inst0 == store.inst
      ensures Valid()
    {
      this.store, this.kind, restores, inst0 := store, kind, [], store.inst;
    }

    predicate Exact() {
      kind == Layernorms
    }

    ghost predicate Valid()
      reads this, store
    {
      && Faithful(restores, inst0, store.cls)
      && forall slot :: slot !in Slots(restores) ==> Lookup(store.inst, slot) == Lookup(inst0, slot)
    }

    // Remember a slot, then overwrite it. May be interrupted between the two and afterwards.
    method Patch(slot: Slot, value: Value) returns (raised: bool)
      requires Valid() && Get(store.inst, store.cls, slot).Some?
      modifies this`restores, store`inst
      ensures Valid() && Slots(restores) == Slots(old(restores)) + {slot}
      ensures !raised ==> store.inst == old(store.inst)[slot := value]
    {
      var u := Undo(slot, Get(store.inst, store.cls, slot).value, slot in store.inst);
      AppendKeepsFaithful(restores, inst0, store.cls, store.inst, u);
      assert Slots(restores + [u]) == Slots(restores) + {slot};
      restores := restores + [u];
      raised := *;
      if raised {
        return;
      }
      store.inst := store.inst[slot := value];
      raised := *;
    }

    // Only slots of this manager that were to be patched have been recorded.
    ghost predicate Within(layer: Layer)
      reads this, store
    {
      forall slot :: slot in Slots(restores) ==>
        Rank(slot) < |KINDS| && KINDS[Rank(slot)] == kind && Wants(layer, inst0, store.cls, slot)
    }

    // Every recorded slot has been patched.
    ghost predicate AllSet(layer: Layer)
      reads this, store
    {
      forall slot :: slot in Slots(restores) ==> Lookup(store.inst, slot) == Dealt(layer, inst0, store.cls, slot)
    }

    // The slot was recorded if it was to be patched, and holds what it is to hold.
    ghost predicate Handled(layer: Layer, slot: Slot)
      reads this, store
    {
      && (Wants(layer, inst0, store.cls, slot) ==> slot in Slots(restores))
      && Lookup(store.inst, slot) == Dealt(layer, inst0, store.cls, slot)
    }

    // One turn of a manager's loop: patch the slot if that is wanted.
    method Visit(layer: Layer, slot: Slot, value: Value) returns (raised: bool)
      requires Valid() && Within(layer) && AllSet(layer) && layer.WellFormed()
      requires Rank(slot) < |KINDS| && KINDS[Rank(slot)] == kind
      requires Wants(layer, store.inst, store.cls, slot) ==> value == Target(layer, store.inst, store.cls, slot)
      modifies this`restores, store`inst
      ensures Valid() && Within(layer)
      ensures !raised ==> AllSet(layer) && Handled(layer, slot)
      ensures !raised ==> forall s :: old(Handled(layer, s)) ==> Handled(layer, s)
    {
      WantsLocal(layer, store.inst, inst0, store.cls, slot);
      raised := false;
      if Wants(layer, store.inst, store.cls, slot) {
        if slot in Slots(restores) {
          DealtTwice(layer, inst0, store.inst, store.cls, slot);
        }
        raised := Patch(slot, value);
      }
    }

    // Every RMSNorm method becomes the class's own, and is marked as compiled already.
    method VisitLayernorm(layer: Layer, obj: nat) returns (raised: bool)
      requires Valid() && Within(layer) && AllSet(layer) && layer.WellFormed() && kind == Layernorms
      modifies this`restores, store`inst
      ensures Valid() && Within(layer)
      ensures !raised ==> Handled(layer, Attr(obj, STATIC_FORWARDS[0])) && Handled(layer, Attr(obj, STATIC_FORWARDS[1]))
      ensures !raised ==> Handled(layer, Attr(obj, IS_COMPILED))
      ensures !raised ==> AllSet(layer) && forall s :: old(Handled(layer, s)) ==> Handled(layer, s)
    {
      for n := 0 to |STATIC_FORWARDS|
        invariant Valid() && Within(layer) && AllSet(layer)
        invariant forall k :: 0 <= k < n ==> Handled(layer, Attr(obj, STATIC_FORWARDS[k]))
        invariant forall s :: old(Handled(layer, s)) ==> Handled(layer, s)
      {
        var slot := Attr(obj, STATIC_FORWARDS[n]);
        raised := Visit(layer, slot, if slot in store.cls then store.cls[slot] else 0);
        if raised {
          return;
        }
      }
      Ranks(obj);
      raised := Visit(layer, Attr(obj, IS_COMPILED), TRUE_VALUE);
    }

    // Every tensor parameter becomes plain.
    method VisitParameters(layer: Layer, obj: nat) returns (raised: bool)
      requires Valid() && Within(layer) && AllSet(layer) && layer.WellFormed() && kind == PlainParameters
      requires obj in layer.parameterNames
      modifies this`restores, store`inst
      ensures Valid() && Within(layer)
      ensures !raised ==> forall name :: name in layer.parameterNames[obj] ==> Handled(layer, Param(obj, name))
      ensures !raised ==> AllSet(layer) && forall s :: old(Handled(layer, s)) ==> Handled(layer, s)
    {
      var names := layer.parameterNames[obj];
      for n := 0 to |names|
        invariant Valid() && Within(layer) && AllSet(layer)
        invariant forall k :: 0 <= k < n ==> Handled(layer, Param(obj, names[k]))
        invariant forall s :: old(Handled(layer, s)) ==> Handled(layer, s)
      {
        var slot := Param(obj, names[n]);
        var tensor := slot in store.inst && store.inst[slot] in layer.asPlain;
        raised := Visit(layer, slot, if tensor then layer.asPlain[store.inst[slot]] else 0);
        if raised {
          return;
        }
      }
      raised := false;
    }

    method EnterLayernorms(layer: Layer) returns (raised: bool)
      requires Valid() && Within(layer) && AllSet(layer) && layer.WellFormed() && kind == Layernorms
      modifies this`restores, store`inst
      ensures Valid() && Within(layer)
      ensures !raised ==> forall slot :: Rank(slot) == 0 ==> Handled(layer, slot)
      ensures !raised ==> forall m, n :: m in layer.modules && 0 <= n < 2 && Attr(m, STATIC_FORWARDS[n]) in store.cls ==>
                Get(store.inst, store.cls, Attr(m, STATIC_FORWARDS[n])) == Some(store.cls[Attr(m, STATIC_FORWARDS[n])])
      ensures !raised ==> forall m :: m in layer.modules && Get(inst0, store.cls, Attr(m, "_is_compiled")).Some? ==>
                Get(store.inst, store.cls, Attr(m, "_is_compiled")) == Some(TRUE_VALUE)
    {
      for m := 0 to |layer.modules|
        invariant Valid() && Within(layer) && AllSet(layer)
        invariant forall j :: 0 <= j < m ==> Handled(layer, Attr(layer.modules[j], STATIC_FORWARDS[0]))
        invariant forall j :: 0 <= j < m ==> Handled(layer, Attr(layer.modules[j], STATIC_FORWARDS[1]))
        invariant forall j :: 0 <= j < m ==> Handled(layer, Attr(layer.modules[j], IS_COMPILED))
      {
        raised := VisitLayernorm(layer, layer.modules[m]);
        if raised {
          return;
        }
      }
      raised := false;
    }

    method EnterPlainParameters(layer: Layer) returns (raised: bool)
      requires Valid() && Within(layer) && AllSet(layer) && layer.WellFormed() && kind == PlainParameters
      modifies this`restores, store`inst
      ensures Valid() && Within(layer)
      ensures !raised ==> forall slot :: Rank(slot) == 1 ==> Handled(layer, slot)
      ensures !raised ==> forall m, name ::
                (m in layer.modules && m in layer.parameterNames
                 && name in layer.parameterNames[m] && Param(m, name) in inst0) ==>
                  var held := inst0[Param(m, name)];
                  Lookup(store.inst, Param(m, name))
                  == Some(if held !in layer.plain && held in layer.asPlain then layer.asPlain[held] else held)
    {
      for m := 0 to |layer.modules|
        invariant Valid() && Within(layer) && AllSet(layer)
        invariant forall j, name :: 0 <= j < m && Named(layer, layer.modules[j], name) ==>
                    Handled(layer, Param(layer.modules[j], name))
      {
        if layer.modules[m] in layer.parameterNames {
          raised := VisitParameters(layer, layer.modules[m]);
          if raised {
            return;
          }
        }
      }
      raised := false;
    }

    // Every rotary module with a native path uses it.
    method EnterNativeRotary(layer: Layer) returns (raised: bool)
      requires Valid() && Within(layer) && AllSet(layer) && layer.WellFormed() && kind == NativeRotary
      modifies this`restores, store`inst
      ensures Valid() && Within(layer)
      ensures !raised ==> forall slot :: Rank(slot) == 2 ==> Handled(layer, slot)
      ensures !raised ==> forall m ::
                (m in layer.modules && m in layer.native
                 && Get(inst0, store.cls, Attr(m, "_forward_method")).Some?) ==>
                  Get(store.inst, store.cls, Attr(m, "_forward_method")) == Some(layer.native[m])
    {
      for m := 0 to |layer.modules|
        invariant Valid() && Within(layer) && AllSet(layer)
        invariant forall j :: 0 <= j < m && layer.modules[j] in layer.native ==>
                    Handled(layer, Attr(layer.modules[j], FORWARD_METHOD))
      {
        var obj := layer.modules[m];
        if obj in layer.native {
          Ranks(obj);
          raised := Visit(layer, Attr(obj, FORWARD_METHOD), layer.native[obj]);
          if raised {
            return;
          }
        }
      }
      raised := false;
    }

    // Every listed module dispatches to the default.
    method EnterDefaultGemm(layer: Layer) returns (raised: bool)
      requires Valid() && Within(layer) && AllSet(layer) && layer.WellFormed() && kind == DefaultGemm
      modifies this`restores, store`inst
      ensures Valid() && Within(layer)
      ensures !raised ==> forall slot :: Rank(slot) == 3 ==> Handled(layer, slot)
      ensures !raised ==> forall m ::
                (m in layer.gemmModules && Get(inst0, store.cls, Attr(m, "dispatch_unquantized_gemm")).Some?) ==>
                  Get(store.inst, store.cls, Attr(m, "dispatch_unquantized_gemm")) == Some(layer.defaultDispatch)
    {
      for m := 0 to |layer.gemmModules|
        invariant Valid() && Within(layer) && AllSet(layer)
        invariant forall j :: 0 <= j < m ==> Handled(layer, Attr(layer.gemmModules[j], DISPATCH))
      {
        Ranks(layer.gemmModules[m]);
        raised := Visit(layer, Attr(layer.gemmModules[m], DISPATCH), layer.defaultDispatch);
        if raised {
          return;
        }
      }
      raised := false;
    }

    method Enter(layer: Layer) returns (raised: bool)
      requires Valid() && Within(layer) && AllSet(layer) && layer.WellFormed()
      modifies this`restores, store`inst
      ensures Valid() && Within(layer)
      ensures !raised ==> forall slot :: Rank(slot) < |KINDS| && KINDS[Rank(slot)] == kind ==> Handled(layer, slot)
    {
      match kind
      case Layernorms => raised := EnterLayernorms(layer);
      case PlainParameters => raised := EnterPlainParameters(layer);
      case NativeRotary => raised := EnterNativeRotary(layer);
      case DefaultGemm => raised := EnterDefaultGemm(layer);
    }

    // The `finally` block: undo the list in reverse.
    method Exit()
      modifies store`inst
      ensures store.inst == UndoAll(old(store.inst), restores, Exact())
    {
      var i := |restores|;
      assert restores[..i] == restores;
      while i > 0
        invariant 0 <= i <= |restores|
        invariant UndoAll(store.inst, restores[..i], Exact()) == UndoAll(old(store.inst), restores, Exact())
      {
        i := i - 1;
        var u := restores[i];
        assert restores[..i + 1][..i] == restores[..i];
        if Exact() && !u.existed {
          store.inst := store.inst - {u.slot};   // a missing attribute is ignored
        } else {
          store.inst := store.inst[u.slot := u.value];
        }
      }
    }
  }

  // What the body does to the instances: some attributes deleted, some written.
  function Touch(inst: Instances, deletes: set<Slot>, writes: Instances): Instances {
    inst - deletes + writes
  }

  lemma Unranked(layer: Layer, inst: Instances, cls: Instances, slot: Slot)
    requires Rank(slot) >= |KINDS|
    ensures !Wants(layer, inst, cls, slot)
  {
  }

  // `with` over the managers from the i-th on, around a body that may delete and write any
  // attributes and may raise. The slots that get patched are those the managers want, or fewer if
  // an interruption keeps the body from running. Patched slots are put back; every other slot is as
  // the body left it, or as it was if the body did not run.
  method With(store: Store, layer: Layer, i: nat, deletes: set<Slot>, writes: Instances, bodyRaises: bool)
    returns (raised: bool, bodyRan: bool, patched: set<Slot>, ghost during: Instances)
    requires i <= |KINDS| && layer.WellFormed()
    modifies store`inst
    ensures raised == (bodyRan ==> bodyRaises)
    ensures forall slot :: slot in patched ==> Rank(slot) >= i && Wants(layer, old(store.inst), store.cls, slot)
    ensures bodyRan ==> forall slot :: Rank(slot) >= i && Wants(layer, old(store.inst), store.cls, slot) ==> slot in patched
    ensures forall slot :: slot in patched ==> PutBack(store.inst, old(store.inst), store.cls, slot, Rank(slot) == 0)
    ensures forall slot :: slot !in patched ==>
              Lookup(store.inst, slot)
              == Lookup(if bodyRan then Touch(old(store.inst), deletes, writes) else old(store.inst), slot)
    ensures bodyRan ==> forall slot ::
              Lookup(during, slot)
              == if Rank(slot) >= i then Dealt(layer, old(store.inst), store.cls, slot) else Lookup(old(store.inst), slot)
    decreases |KINDS| - i
  {
    during := store.inst;
    if i == |KINDS| {
      forall slot | Rank(slot) >= i ensures !Wants(layer, store.inst, store.cls, slot) {
        Unranked(layer, store.inst, store.cls, slot);
      }
      store.inst := Touch(store.inst, deletes, writes);
      return bodyRaises, true, {}, during;
    }
    var manager := new Manager(store, KINDS[i]);
    raised := manager.Enter(layer);
    ghost var entered := store.inst;
    bodyRan, patched := false, {};
    if !raised {
      raised, bodyRan, patched, during := With(store, layer, i + 1, deletes, writes, bodyRaises);
    }
    ghost var unwound, inner := store.inst, patched;
    manager.Exit();
    patched := patched + Slots(manager.restores);
    forall slot
      ensures slot in patched ==> Rank(slot) >= i && Wants(layer, old(store.inst), store.cls, slot)
      ensures bodyRan && Rank(slot) >= i && Wants(layer, old(store.inst), store.cls, slot) ==> slot in patched
      ensures bodyRan ==>
                Lookup(during, slot)
                == if Rank(slot) >= i then Dealt(layer, old(store.inst), store.cls, slot) else Lookup(old(store.inst), slot)
      ensures slot in patched ==> PutBack(store.inst, old(store.inst), store.cls, slot, Rank(slot) == 0)
      ensures slot !in patched ==>
                Lookup(store.inst, slot)
                == Lookup(if bodyRan then Touch(old(store.inst), deletes, writes) else old(store.inst), slot)
    {
      WantsLocal(layer, entered, old(store.inst), store.cls, slot);
      ExitPutsBack(old(store.inst), entered, unwound, manager.restores, store.cls, manager.Exact(), inner,
                   deletes, writes, bodyRan, slot);
    }
  }

  // Leaving one manager, seen at one slot: `entered` is what its `with` body found and `unwound`
  // what the managers inside it left, having patched `inner`.
  lemma ExitPutsBack(inst0: Instances, entered: Instances, unwound: Instances, log: seq<Undo>, cls: Instances,
                     exact: bool, inner: set<Slot>, deletes: set<Slot>, writes: Instances, bodyRan: bool, slot: Slot)
    requires Faithful(log, inst0, cls)
    requires slot !in Slots(log) ==> Lookup(entered, slot) == Lookup(inst0, slot)
    requires slot in inner ==> PutBack(unwound, entered, cls, slot, Rank(slot) == 0)
    requires slot !in inner ==>
               Lookup(unwound, slot) == Lookup(if bodyRan then Touch(entered, deletes, writes) else entered, slot)
    ensures var after := UndoAll(unwound, log, exact);
            && (slot in Slots(log) ==> PutBack(after, inst0, cls, slot, exact))
            && (slot !in Slots(log) && slot in inner ==> PutBack(after, inst0, cls, slot, Rank(slot) == 0))
            && (slot !in Slots(log) && slot !in inner ==>
                  Lookup(after, slot) == Lookup(if bodyRan then Touch(inst0, deletes, writes) else inst0, slot))
  {
    UndoPutsBack(unwound, log, inst0, cls, exact, slot);
  }

  // The slots that do not go back to where they lived: those that the rotary or the GEMM manager
  // patches and that live on the class only.
  predicate Skewed(layer: Layer, inst: Instances, cls: Instances, slot: Slot) {
    && slot !in inst && slot in cls && slot.Attr?
    && (|| (slot.name == FORWARD_METHOD && slot.obj in layer.modules && slot.obj in layer.native)
        || (slot.name == DISPATCH && slot.obj in layer.gemmModules))
  }

  lemma SkewedIsMoved(layer: Layer, inst: Instances, cls: Instances, slot: Slot)
    ensures Skewed(layer, inst, cls, slot) <==> Wants(layer, inst, cls, slot) && Rank(slot) != 0 && slot !in inst
  {
    Ranks(slot.obj);
  }

  // What the body of the `with` statement finds: every patch in place, and nothing else changed.
  ghost predicate AllPatched(layer: Layer, inst0: Instances, during: Instances, cls: Instances) {
    && (forall m, n :: m in layer.modules && 0 <= n < 2 && Attr(m, STATIC_FORWARDS[n]) in cls ==>
          Get(during, cls, Attr(m, STATIC_FORWARDS[n])) == Some(cls[Attr(m, STATIC_FORWARDS[n])]))
    && (forall m :: m in layer.modules && Get(inst0, cls, Attr(m, "_is_compiled")).Some? ==>
          Get(during, cls, Attr(m, "_is_compiled")) == Some(TRUE_VALUE))
    && (forall m, name ::
          (m in layer.modules && m in layer.parameterNames && name in layer.parameterNames[m]
           && Param(m, name) in inst0 && inst0[Param(m, name)] !in layer.plain && inst0[Param(m, name)] in layer.asPlain) ==>
          Lookup(during, Param(m, name)) == Some(layer.asPlain[inst0[Param(m, name)]]))
    && (forall m :: m in layer.modules && m in layer.native && Get(inst0, cls, Attr(m, "_forward_method")).Some? ==>
          Get(during, cls, Attr(m, "_forward_method")) == Some(layer.native[m]))
    && (forall m :: m in layer.gemmModules && Get(inst0, cls, Attr(m, "dispatch_unquantized_gemm")).Some? ==>
          Get(during, cls, Attr(m, "dispatch_unquantized_gemm")) == Some(layer.defaultDispatch))
    && (forall slot :: Lookup(during, slot) != Lookup(inst0, slot) ==> Patchable(layer, inst0, cls, slot))
  }

  // The attributes that any manager may touch.
  predicate Patchable(layer: Layer, inst: Instances, cls: Instances, slot: Slot) {
    match slot
    case Param(obj, name) =>
      obj in layer.modules && slot in inst && inst[slot] !in layer.plain && inst[slot] in layer.asPlain
    case Attr(obj, name) =>
      || (obj in layer.modules && name in STATIC_FORWARDS && slot in cls && Get(inst, cls, slot) != Some(cls[slot]))
      || (obj in layer.modules && name == "_is_compiled" && Get(inst, cls, slot).Some?)
      || (obj in layer.modules && name == "_forward_method" && obj in layer.native && Get(inst, cls, slot).Some?)
      || (obj in layer.gemmModules && name == "dispatch_unquantized_gemm" && Get(inst, cls, slot).Some?)
  }

  lemma DuringIsPatched(layer: Layer, inst0: Instances, during: Instances, cls: Instances)
    requires forall slot :: Lookup(during, slot) == Dealt(layer, inst0, cls, slot)
    ensures AllPatched(layer, inst0, during, cls)
  {
    forall m, n | m in layer.modules && 0 <= n < 2 && Attr(m, STATIC_FORWARDS[n]) in cls
      ensures Get(during, cls, Attr(m, STATIC_FORWARDS[n])) == Some(cls[Attr(m, STATIC_FORWARDS[n])])
    {
      assert Lookup(during, Attr(m, STATIC_FORWARDS[n])) == Dealt(layer, inst0, cls, Attr(m, STATIC_FORWARDS[n]));
    }
    forall m | m in layer.modules && Get(inst0, cls, Attr(m, "_is_compiled")).Some?
      ensures Get(during, cls, Attr(m, "_is_compiled")) == Some(TRUE_VALUE)
    {
      Ranks(m);
      assert Lookup(during, Attr(m, IS_COMPILED)) == Dealt(layer, inst0, cls, Attr(m, IS_COMPILED));
    }
    forall m | m in layer.modules && m in layer.native && Get(inst0, cls, Attr(m, "_forward_method")).Some?
      ensures Get(during, cls, Attr(m, "_forward_method")) == Some(layer.native[m])
    {
      Ranks(m);
      assert Lookup(during, Attr(m, FORWARD_METHOD)) == Dealt(layer, inst0, cls, Attr(m, FORWARD_METHOD));
    }
    forall m | m in layer.gemmModules && Get(inst0, cls, Attr(m, "dispatch_unquantized_gemm")).Some?
      ensures Get(during, cls, Attr(m, "dispatch_unquantized_gemm")) == Some(layer.defaultDispatch)
    {
      Ranks(m);
      assert Lookup(during, Attr(m, DISPATCH)) == Dealt(layer, inst0, cls, Attr(m, DISPATCH));
    }
    forall slot | Lookup(during, slot) != Lookup(inst0, slot) ensures Patchable(layer, inst0, cls, slot) {
      assert Wants(layer, inst0, cls, slot);
    }
  }

  // The whole `with` statement around a body that leaves attributes alone. Every attribute reads
  // as before, whatever is interrupted. The instances hold what they held before, except that a
  // skewed slot may now be the instance's own, and is, once all managers were entered.
  method TraceWithPatches(store: Store, layer: Layer, bodyRaises: bool)
    returns (raised: bool, entered: bool, ghost during: Instances)
    requires layer.WellFormed()
    modifies store`inst
    ensures raised == (entered ==> bodyRaises)
    ensures forall slot :: Get(store.inst, store.cls, slot) == Get(old(store.inst), store.cls, slot)
    ensures forall slot :: !Skewed(layer, old(store.inst), store.cls, slot) ==>
              Lookup(store.inst, slot) == Lookup(old(store.inst), slot)
    ensures (forall slot :: !Skewed(layer, old(store.inst), store.cls, slot)) ==> store.inst == old(store.inst)
    ensures entered ==> forall slot :: Skewed(layer, old(store.inst), store.cls, slot) ==> slot in store.inst
    ensures entered ==>
              (store.inst == old(store.inst) <==> forall slot :: !Skewed(layer, old(store.inst), store.cls, slot))
    ensures entered ==> AllPatched(layer, old(store.inst), during, store.cls)
  {
    var patched;
    raised, entered, patched, during := With(store, layer, 0, {}, map[], bodyRaises);
    if entered {
      DuringIsPatched(layer, old(store.inst), during, store.cls);
    }
    ghost var before, after := old(store.inst), store.inst;
    assert Touch(before, {}, map[]) == before;
    forall slot
      ensures Get(after, store.cls, slot) == Get(before, store.cls, slot)
      ensures !Skewed(layer, before, store.cls, slot) ==> Lookup(after, slot) == Lookup(before, slot)
      ensures entered && Skewed(layer, before, store.cls, slot) ==> slot in after
    {
      SkewedIsMoved(layer, before, store.cls, slot);
      if slot !in patched {
        assert Lookup(after, slot) == Lookup(before, slot);
      }
    }
    if forall slot :: !Skewed(layer, before, store.cls, slot) {
      SameLookups(before, after);
    }
  }

  lemma SameLookups(a: Instances, b: Instances)
    requires forall slot :: Lookup(a, slot) == Lookup(b, slot)
    ensures a == b
  {
    forall slot ensures slot in a <==> slot in b {
      assert Lookup(a, slot) == Lookup(b, slot);
    }
    forall slot | slot in a ensures a[slot] == b[slot] {
      assert Lookup(a, slot) == Lookup(b, slot);
    }
  }

  // One rotary module with a native path. If it holds its own `_forward_method`, nothing changes;
  // if only its class does, the trace leaves a copy on the instance.
  method TraceOneRotary(own: bool, bound: Value, native: Value) returns (store: Store, entered: bool)
    ensures own ==> store.inst == map[Attr(0, FORWARD_METHOD) := bound]
    ensures !own && entered ==> store.inst == map[Attr(0, FORWARD_METHOD) := bound]
    ensures !own && !entered ==> store.inst == map[] || store.inst == map[Attr(0, FORWARD_METHOD) := bound]
  {
    var slot := Attr(0, FORWARD_METHOD);
    var held := map[slot := bound];
    var layer := Layer([0], map[], map[0 := native], [], {}, map[], 0);
    store := new Store(if own then held else map[], if own then map[] else held);
    ghost var before := store.inst;
    var raised;
    ghost var during;
    raised, entered, during := TraceWithPatches(store, layer, false);
    OnlyOneSlot(store.inst, before, store.cls, slot);
    assert own || Skewed(layer, before, store.cls, slot);
  }

  lemma OnlyOneSlot(after: Instances, before: Instances, cls: Instances, slot: Slot)
    requires forall s :: Get(after, cls, s) == Get(before, cls, s)
    requires Get(before, cls, slot).Some? && forall s :: s != slot ==> Get(before, cls, s) == None
    ensures after == map[] || after == map[slot := Get(before, cls, slot).value]
    ensures slot in cls || after != map[]
  {
    forall s | s in after ensures s == slot && Some(after[s]) == Get(before, cls, slot) {
      assert Get(after, cls, s) == Get(before, cls, s);
    }
    assert Get(after, cls, slot) == Get(before, cls, slot);
    if slot in after {
      assert after == map[slot := after[slot]];
    } else {
      assert after == map[];
    }
  }
}
