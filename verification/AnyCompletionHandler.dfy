/** The code of `any_completion_handler` on real objects, proved against the
    ownership steps of `HandlerOwnership`. A null pointer is `None`; the table
    pointer is the type of the handler it was instantiated for. */
module AnyCompletionHandler {
  import opened Wrappers
  import O = HandlerOwnership

  function Without(live: map<O.Target, O.HandlerType>, impl: Option<O.Target>): map<O.Target, O.HandlerType> {
    if impl.Some? then live - {impl.value} else live
  }

  function Farewell(impl: Option<O.Target>): seq<O.Event> {
    if impl.Some? then [O.Destroyed(impl.value), O.Freed(impl.value)] else []
  }

  /** The storage of all targets: `any_completion_handler_impl` objects by
      address, with the type they really have. */
  class Storage {
    var live: map<O.Target, O.HandlerType>
    var next: O.Target
    var log: seq<O.Event>

    constructor ()
      ensures live == map[] && next == 0 && log == []
    {
      live, next, log := map[], 0, [];
    }

    /** The function table of a live target really is the one of its type, so
        the `static_cast` behind every table entry is the right one. */
    ghost predicate Holds(p: O.Pointers)
      reads this
    {
      p.impl.Some? ==> p.impl.value in live && p.table == Some(live[p.impl.value])
    }

    /** `any_completion_handler_impl<Handler>::create`: when the constructor
        throws, the deleter frees the raw storage. `None` means it threw. */
    method Create(handlerType: O.HandlerType, outcome: O.CreateOutcome) returns (t: Option<O.Target>)
      modifies this
      ensures t == if outcome == O.Created then Some(old(next)) else None
      ensures outcome == O.AllocationThrows ==> next == old(next) && log == old(log)
      ensures outcome == O.ConstructorThrows ==>
        next == old(next) + 1 && log == old(log) + [O.Allocated(old(next)), O.Freed(old(next))]
      ensures outcome == O.Created ==>
        next == old(next) + 1 && log == old(log) + [O.Allocated(old(next)), O.Constructed(old(next))]
      ensures live == if outcome == O.Created then old(live)[old(next) := handlerType] else old(live)
    {
      if outcome == O.AllocationThrows {
        return None;
      }
      var raw := next;
      next := next + 1;
      log := log + [O.Allocated(raw)];
      if outcome == O.ConstructorThrows {
        log := log + [O.Freed(raw)];
        return None;
      }
      live := live[raw := handlerType];
      log := log + [O.Constructed(raw)];
      return Some(raw);
    }

    /** `destroy` through the table: cast, destroy, deallocate. */
    method Destroy(table: O.HandlerType, t: O.Target)
      requires t in live && live[t] == table
      modifies this`live, this`log
      ensures live == old(live) - {t} && log == old(log) + [O.Destroyed(t), O.Freed(t)]
    {
      log := log + [O.Destroyed(t)];
      live := live - {t};
      log := log + [O.Freed(t)];
    }

    /** `call` through the table: move the handler out, release the storage on
        every path, and only then invoke. */
    method Call(table: O.HandlerType, t: O.Target, moveThrows: bool)
      requires t in live && live[t] == table
      modifies this`live, this`log
      ensures live == old(live) - {t}
      ensures log == old(log) + [O.Destroyed(t), O.Freed(t)] + if moveThrows then [] else [O.Invoked(t)]
    {
      Destroy(table, t);
      if !moveThrows {
        log := log + [O.Invoked(t)];
      }
    }
  }

  class Wrapper {
    var fnTable: Option<O.HandlerType>
    var impl: Option<O.Target>

    ghost function View(): O.Pointers
      reads this
    {
      O.Pointers(fnTable, impl)
    }

    constructor ()
      ensures View() == O.EMPTY
    {
      fnTable, impl := None, None;
    }

    constructor Holding(handlerType: O.HandlerType, t: O.Target)
      ensures View() == O.Pointers(Some(handlerType), Some(t))
    {
      fnTable, impl := Some(handlerType), Some(t);
    }

    constructor MoveFrom(other: Wrapper)
      modifies other
      ensures View() == old(other.View()) && other.View() == O.EMPTY
    {
      fnTable, impl := other.fnTable, other.impl;
      new;
      other.fnTable := None;
      other.impl := None;
    }

    method Swap(other: Wrapper)
      modifies this, other
      ensures View() == old(other.View()) && other.View() == old(View())
    {
      fnTable, other.fnTable := other.fnTable, fnTable;
      impl, other.impl := other.impl, impl;
    }

    /** The destructor. */
    method Destruct(storage: Storage)
      requires storage.Holds(View())
      modifies storage`live, storage`log
      ensures storage.live == Without(old(storage.live), impl)
      ensures storage.log == old(storage.log) + Farewell(impl)
    {
      if impl.Some? {
        storage.Destroy(fnTable.value, impl.value);
      }
    }

    /** Move assignment through a temporary. Moving a wrapper to itself changes
        nothing and destroys nothing. */
    method MoveAssign(other: Wrapper, storage: Storage)
      requires storage.Holds(View()) && storage.Holds(other.View())
      modifies this, other, storage`live, storage`log
      ensures View() == old(other.View())
      ensures this != other ==> other.View() == O.EMPTY
      ensures var gone := if this == other then None else old(impl);
              storage.live == Without(old(storage.live), gone) && storage.log == old(storage.log) + Farewell(gone)
    {
      var temporary := new Wrapper.MoveFrom(other);
      temporary.Swap(this);
      temporary.Destruct(storage);
    }

    /** Assignment of `nullptr`. */
    method AssignNull(storage: Storage)
      requires storage.Holds(View())
      modifies this, storage`live, storage`log
      ensures View() == O.EMPTY
      ensures storage.live == Without(old(storage.live), old(impl))
      ensures storage.log == old(storage.log) + Farewell(old(impl))
    {
      var temporary := new Wrapper();
      temporary.Swap(this);
      temporary.Destruct(storage);
    }

    /** The call operator, up to the moment the handler runs. `None` is the
        exception `std::bad_function_call`. The table pointer stays. */
    method Call(storage: Storage, moveThrows: bool) returns (called: Option<O.Target>)
      requires storage.Holds(View())
      modifies this`impl, storage`live, storage`log
      ensures called == old(impl) && View() == old(View()).(impl := None)
      ensures storage.live == Without(old(storage.live), called)
      ensures storage.log == old(storage.log) + Farewell(called)
        + if called.Some? && !moveThrows then [O.Invoked(called.value)] else []
    {
      called := impl;
      if called.Some? {
        impl := None;
        storage.Call(fnTable.value, called.value, moveThrows);
      }
    }
  }

  /** The named wrapper objects of a program. */
  type Objects = map<O.Id, Wrapper>

  ghost predicate Distinct(objects: Objects) {
    forall i, j :: i in objects && j in objects && objects[i] == objects[j] ==> i == j
  }

  ghost function Views(objects: Objects): map<O.Id, O.Pointers>
    reads objects.Values
  {
    map i | i in objects :: objects[i].View()
  }

  /** The state of all objects as a world of the ownership model. */
  ghost function Snapshot(objects: Objects, storage: Storage): O.World
    reads storage, objects.Values
  {
    O.World(Views(objects), storage.live, storage.next, storage.log)
  }

  /** What every step relies on: distinct names are distinct objects, and the
      ownership invariant holds. */
  ghost predicate Ready(objects: Objects, storage: Storage)
    reads storage, objects.Values
  {
    Distinct(objects) && O.Sound(Snapshot(objects, storage))
  }

  /** Each object was there before or is new. */
  twostate predicate Grown(before: Objects, new after: Objects) {
    forall i :: i in after ==> after[i] in before.Values || fresh(after[i])
  }

  /** Put a new wrapper, empty or moved from another one, under a new name. */
  method ConstructFrom(objects: Objects, storage: Storage, op: O.Op) returns (after: Objects)
    requires Ready(objects, storage) && O.Enabled(Snapshot(objects, storage), op)
    requires op.ConstructEmpty? || op.MoveConstruct?
    modifies objects.Values
    ensures Distinct(after) && Grown(objects, after)
    ensures Snapshot(after, storage) == O.Exec(old(Snapshot(objects, storage)), op)
  {
    var wrapper: Wrapper;
    if op.ConstructEmpty? {
      wrapper := new Wrapper();
    } else {
      wrapper := new Wrapper.MoveFrom(objects[op.from]);
    }
    after := objects[op.w := wrapper];
    assert Views(after) == O.Exec(old(Snapshot(objects, storage)), op).wrappers;
  }

  /** Put a new wrapper with a new target under a new name, unless creating the
      target throws. */
  method Construct(objects: Objects, storage: Storage, op: O.Op) returns (after: Objects)
    requires Ready(objects, storage) && O.Enabled(Snapshot(objects, storage), op) && op.Construct?
    modifies storage
    ensures Distinct(after) && Grown(objects, after)
    ensures Snapshot(after, storage) == O.Exec(old(Snapshot(objects, storage)), op)
  {
    var t := storage.Create(op.handlerType, op.outcome);
    if t == None {
      assert Views(objects) == old(Views(objects));
      return objects;
    }
    var wrapper := new Wrapper.Holding(op.handlerType, t.value);
    after := objects[op.w := wrapper];
    assert Views(after) == O.Exec(old(Snapshot(objects, storage)), op).wrappers;
  }

  lemma ViewsHeld(objects: Objects, storage: Storage, i: O.Id)
    requires Ready(objects, storage) && i in objects
    ensures storage.Holds(objects[i].View())
  {
    assert Views(objects)[i] == objects[i].View();
  }

  method MoveAssign(objects: Objects, storage: Storage, w: O.Id, from: O.Id)
    requires Ready(objects, storage) && w in objects && from in objects
    modifies storage, objects.Values
    ensures Snapshot(objects, storage) == O.Exec(old(Snapshot(objects, storage)), O.MoveAssign(w, from))
  {
    ViewsHeld(objects, storage, w);
    ViewsHeld(objects, storage, from);
    ghost var target := O.Exec(Snapshot(objects, storage), O.MoveAssign(w, from));
    objects[w].MoveAssign(objects[from], storage);
    assert Views(objects) == target.wrappers;
  }

  method Swap(objects: Objects, storage: Storage, w: O.Id, other: O.Id)
    requires Ready(objects, storage) && w in objects && other in objects
    modifies objects.Values
    ensures Snapshot(objects, storage) == O.Exec(old(Snapshot(objects, storage)), O.Swap(w, other))
  {
    ghost var target := O.Exec(Snapshot(objects, storage), O.Swap(w, other));
    objects[w].Swap(objects[other]);
    assert Views(objects) == target.wrappers;
  }

  method AssignNull(objects: Objects, storage: Storage, w: O.Id)
    requires Ready(objects, storage) && w in objects
    modifies storage, objects.Values
    ensures Snapshot(objects, storage) == O.Exec(old(Snapshot(objects, storage)), O.AssignNull(w))
  {
    ViewsHeld(objects, storage, w);
    ghost var target := O.Exec(Snapshot(objects, storage), O.AssignNull(w));
    objects[w].AssignNull(storage);
    assert Views(objects) == target.wrappers;
  }

  method Destroy(objects: Objects, storage: Storage, w: O.Id) returns (after: Objects)
    requires Ready(objects, storage) && w in objects
    modifies storage
    ensures after == objects - {w}
    ensures Snapshot(after, storage) == O.Exec(old(Snapshot(objects, storage)), O.Destroy(w))
  {
    ViewsHeld(objects, storage, w);
    ghost var target := O.Exec(Snapshot(objects, storage), O.Destroy(w));
    objects[w].Destruct(storage);
    after := objects - {w};
    assert Views(after) == target.wrappers;
  }

  /** The call operator through a named wrapper, up to the handler's own code.
      `running` says whether the handler runs. */
  method Call(objects: Objects, storage: Storage, w: O.Id, moveThrows: bool) returns (running: bool)
    requires Ready(objects, storage) && w in objects
    modifies storage, objects.Values
    ensures running == O.Runs(old(Snapshot(objects, storage)), w, moveThrows)
    ensures Snapshot(objects, storage) == O.Called(old(Snapshot(objects, storage)), w, moveThrows)
  {
    ghost var world := Snapshot(objects, storage);
    ViewsHeld(objects, storage, w);
    var called := objects[w].Call(storage, moveThrows);
    assert Views(objects) == O.Called(world, w, moveThrows).wrappers;
    running := called.Some? && !moveThrows;
  }

  /** Perform one step on the real objects, with everything that the handlers
      invoked on the way do to them. The result is the step of the ownership
      model, whose runs are sound. */
  method Execute(objects: Objects, storage: Storage, op: O.Op) returns (after: Objects)
    requires Ready(objects, storage)
    modifies storage, objects.Values
    ensures Grown(objects, after)
    ensures Ready(after, storage) && Snapshot(after, storage) == O.Exec(old(Snapshot(objects, storage)), op)
    decreases op, 1
  {
    ghost var world := Snapshot(objects, storage);
    O.ExecSound(world, op);
    after := objects;
    if op.Construct? {
      if op.w !in objects {
        after := Construct(objects, storage, op);
      }
    } else if op.ConstructEmpty? || op.MoveConstruct? {
      if op.w !in objects && (op.MoveConstruct? ==> op.from in objects) {
        after := ConstructFrom(objects, storage, op);
      }
    } else if op.w in objects {
      if op.Invoke? {
        O.InvokeSound(world, op.w, op.moveThrows);
        var running := Call(objects, storage, op.w, op.moveThrows);
        if running {
          after := ExecuteAll(objects, storage, op.body);
        }
      } else if op.MoveAssign? {
        if op.from in objects {
          MoveAssign(objects, storage, op.w, op.from);
        }
      } else if op.Swap? {
        if op.other in objects {
          Swap(objects, storage, op.w, op.other);
        }
      } else if op.AssignNull? {
        AssignNull(objects, storage, op.w);
      } else {
        after := Destroy(objects, storage, op.w);
      }
    }
  }

  method ExecuteAll(objects: Objects, storage: Storage, ops: seq<O.Op>) returns (after: Objects)
    requires Ready(objects, storage)
    modifies storage, objects.Values
    ensures Grown(objects, after)
    ensures Ready(after, storage) && Snapshot(after, storage) == O.ExecAll(old(Snapshot(objects, storage)), ops)
    decreases ops, 0
  {
    after := objects;
    if ops != [] {
      var middle := Execute(objects, storage, ops[0]);
      after := ExecuteAll(middle, storage, ops[1..]);
    }
  }

  /** Run a whole program on real objects. Whatever it does, every target that
      was ever allocated is either owned by exactly one wrapper and untouched,
      or has been destroyed and freed exactly once and invoked at most once. */
  method RunProgram(ops: seq<O.Op>) returns (objects: Objects, storage: Storage)
    ensures Snapshot(objects, storage) == O.ExecAll(O.World(map[], map[], 0, []), ops)
    ensures O.Owned(Views(objects), storage.live)
    ensures forall t: O.Target :: t < storage.next && t !in storage.live ==> O.Over(O.History(storage.log, t), t)
    ensures forall t: O.Target :: t in storage.live ==> O.History(storage.log, t) == [O.Allocated(t), O.Constructed(t)]
  {
    storage := new Storage();
    objects := map[];
    assert Snapshot(objects, storage) == O.World(map[], map[], 0, []);
    objects := ExecuteAll(objects, storage, ops);
    O.SoundHistories(Snapshot(objects, storage));
  }
}
