/** Ownership in `any_completion_handler`: a move-only wrapper that owns one
    type-erased target, calls it at most once and gives its storage back. */
module HandlerOwnership {
  import opened Wrappers

  /** The C++ type of a handler, which also names its function table. */
  type HandlerType = nat
  type Target = nat
  type Id = nat

  /** What happens to the storage and to the handler object of a target. */
  datatype Event =
    | Allocated(target: Target)
    | Constructed(target: Target)
    | Destroyed(target: Target)
    | Freed(target: Target)
    | Invoked(target: Target)

  /** The two pointers of a wrapper. */
  datatype Pointers = Pointers(table: Option<HandlerType>, impl: Option<Target>)

  const EMPTY := Pointers(None, None)

  /** All wrappers of a program, the live targets with their types, the next
      target to be allocated, and everything that happened. */
  datatype World = World(wrappers: map<Id, Pointers>, live: map<Target, HandlerType>, next: Target, log: seq<Event>)

  datatype CreateOutcome = Created | AllocationThrows | ConstructorThrows

  /** One step of a program. The body of an invocation is what the handler does
      while it runs, on any wrapper, including the one it was called through. */
  datatype Op =
    | ConstructEmpty(w: Id)
    | Construct(w: Id, handlerType: HandlerType, outcome: CreateOutcome)
    | MoveConstruct(w: Id, from: Id)
    | MoveAssign(w: Id, from: Id)
    | AssignNull(w: Id)
    | Swap(w: Id, other: Id)
    | Destroy(w: Id)
    | Invoke(w: Id, moveThrows: bool, body: seq<Op>)

  /** A step makes sense when it names existing wrappers, and new ones by new
      names; other steps are skipped. */
  predicate Enabled(world: World, op: Op) {
    match op
    case ConstructEmpty(w) => w !in world.wrappers
    case Construct(w, _, _) => w !in world.wrappers
    case MoveConstruct(w, from) => w !in world.wrappers && from in world.wrappers
    case MoveAssign(w, from) => w in world.wrappers && from in world.wrappers
    case Swap(w, other) => w in world.wrappers && other in world.wrappers
    case AssignNull(w) => w in world.wrappers
    case Destroy(w) => w in world.wrappers
    case Invoke(w, _, _) => w in world.wrappers
  }

  /* ----- Moves of ownership ----- */

  function Put(world: World, i: Id, p: Pointers): World {
    world.(wrappers := world.wrappers[i := p])
  }

  function Exchange(world: World, i: Id, j: Id): World
    requires i in world.wrappers && j in world.wrappers
  {
    world.(wrappers := world.wrappers[i := world.wrappers[j]][j := world.wrappers[i]])
  }

  /** Give up the target of a wrapper: destroy the handler and free its storage. */
  function Release(world: World, i: Id, p: Pointers): World
    requires i in world.wrappers && p.impl == None
  {
    match world.wrappers[i].impl
    case None => Put(world, i, p)
    case Some(t) => Put(world, i, p).(live := world.live - {t}, log := world.log + [Destroyed(t), Freed(t)])
  }

  function Create(world: World, i: Id, handlerType: HandlerType): World {
    var t := world.next;
    World(world.wrappers[i := Pointers(Some(handlerType), Some(t))], world.live[t := handlerType], t + 1,
          world.log + [Allocated(t), Constructed(t)])
  }

  /** The call operator, up to the handler's own code: the target is given up
      before it is invoked, and the table pointer stays. */
  function Called(world: World, i: Id, moveThrows: bool): World
    requires i in world.wrappers
  {
    var p := world.wrappers[i];
    var released := Release(world, i, p.(impl := None));
    if p.impl == None || moveThrows then released
    else released.(log := released.log + [Invoked(p.impl.value)])
  }

  /** The handler of wrapper `i` gets to run. */
  predicate Runs(world: World, i: Id, moveThrows: bool)
    requires i in world.wrappers
  {
    world.wrappers[i].impl.Some? && !moveThrows
  }

  /** What a step means. */
  function Exec(world: World, op: Op): World
    decreases op, 1
  {
    if !Enabled(world, op) then world
    else match op
      case ConstructEmpty(w) => Put(world, w, EMPTY)
      case Construct(w, handlerType, Created) => Create(world, w, handlerType)
      case Construct(w, _, AllocationThrows) => world
      case Construct(w, _, ConstructorThrows) =>
        world.(next := world.next + 1, log := world.log + [Allocated(world.next), Freed(world.next)])
      case MoveConstruct(w, from) => Exchange(Put(world, w, EMPTY), w, from)
      case MoveAssign(w, from) => if w == from then world else Release(Exchange(world, w, from), from, EMPTY)
      case AssignNull(w) => Release(world, w, EMPTY)
      case Swap(w, other) => Exchange(world, w, other)
      case Destroy(w) =>
        var released := Release(world, w, EMPTY);
        released.(wrappers := released.wrappers - {w})
      case Invoke(w, moveThrows, body) =>
        var called := Called(world, w, moveThrows);
        if Runs(world, w, moveThrows) then ExecAll(called, body) else called
  }

  function ExecAll(world: World, ops: seq<Op>): World
    decreases ops, 0
  {
    if ops == [] then world else ExecAll(Exec(world, ops[0]), ops[1..])
  }

  /* ----- What a step does, case by case ----- */

  /** Nothing happened to any target. */
  ghost predicate SameTargets(world: World, after: World) {
    (after.live, after.next, after.log) == (world.live, world.next, world.log)
  }

  /** The target, if there is one, has been destroyed and freed. */
  ghost predicate GaveUp(world: World, after: World, target: Option<Target>) {
    && after.next == world.next
    && (target == None ==> after.live == world.live && after.log == world.log)
    && (target.Some? ==>
          && after.live == world.live - {target.value}
          && after.log == world.log + [Destroyed(target.value), Freed(target.value)])
  }

  /** All wrappers but these two are there and as before. */
  ghost predicate OthersSame(world: World, after: World, w: Id, x: Id) {
    forall i :: i != w && i != x ==>
      (i in after.wrappers <==> i in world.wrappers) && (i in world.wrappers ==> after.wrappers[i] == world.wrappers[i])
  }

  /** A default-constructed wrapper is empty. A wrapper around a handler owns a
      new target of the handler's type, unless creating the target throws; when
      the handler's constructor throws, its storage is freed. */
  lemma ConstructionOutcomes(world: World, w: Id, handlerType: HandlerType)
    requires w !in world.wrappers
    ensures var after := Exec(world, ConstructEmpty(w));
            && w in after.wrappers && after.wrappers[w] == Pointers(None, None)
            && OthersSame(world, after, w, w) && SameTargets(world, after)
    ensures var after := Exec(world, Construct(w, handlerType, Created));
            && w in after.wrappers && after.wrappers[w] == Pointers(Some(handlerType), Some(world.next))
            && OthersSame(world, after, w, w) && after.next == world.next + 1
            && after.live == world.live[world.next := handlerType]
            && after.log == world.log + [Allocated(world.next), Constructed(world.next)]
    ensures Exec(world, Construct(w, handlerType, AllocationThrows)) == world
    ensures var after := Exec(world, Construct(w, handlerType, ConstructorThrows));
            && after.wrappers == world.wrappers && after.live == world.live && after.next == world.next + 1
            && after.log == world.log + [Allocated(world.next), Freed(world.next)]
  {
  }

  /** Moving takes both pointers and leaves none behind; move assignment gives up
      the old target, unless a wrapper is moved to itself; swapping exchanges
      the pointers. */
  lemma MoveOutcomes(world: World, w: Id, x: Id)
    requires x in world.wrappers
    ensures w !in world.wrappers ==>
      var after := Exec(world, MoveConstruct(w, x));
      && w in after.wrappers && after.wrappers[w] == world.wrappers[x]
      && x in after.wrappers && after.wrappers[x] == Pointers(None, None)
      && OthersSame(world, after, w, x) && SameTargets(world, after)
    ensures w in world.wrappers && w != x ==>
      var after := Exec(world, MoveAssign(w, x));
      && w in after.wrappers && after.wrappers[w] == world.wrappers[x]
      && x in after.wrappers && after.wrappers[x] == Pointers(None, None)
      && OthersSame(world, after, w, x) && GaveUp(world, after, world.wrappers[w].impl)
    ensures Exec(world, MoveAssign(x, x)) == world
    ensures w in world.wrappers ==>
      var after := Exec(world, Swap(w, x));
      && w in after.wrappers && after.wrappers[w] == world.wrappers[x]
      && x in after.wrappers && after.wrappers[x] == world.wrappers[w]
      && OthersSame(world, after, w, x) && SameTargets(world, after)
  {
  }

  /** Assigning null and destroying give up the wrapper's own target; the wrapper
      is empty in the one case and gone in the other. */
  lemma ReleaseOutcomes(world: World, w: Id)
    requires w in world.wrappers
    ensures var after := Exec(world, AssignNull(w));
            && w in after.wrappers && after.wrappers[w] == Pointers(None, None)
            && OthersSame(world, after, w, w) && GaveUp(world, after, world.wrappers[w].impl)
    ensures var after := Exec(world, Destroy(w));
            && w !in after.wrappers
            && OthersSame(world, after, w, w) && GaveUp(world, after, world.wrappers[w].impl)
  {
  }

  /** A call through an empty wrapper does nothing. Otherwise the target is given
      up and the wrapper keeps its table only; if moving the handler out did not
      throw, the target is invoked and the handler's own steps follow. */
  lemma InvokeOutcomes(world: World, w: Id, body: seq<Op>)
    requires w in world.wrappers
    ensures world.wrappers[w].impl == None ==>
      Exec(world, Invoke(w, false, body)) == world && Exec(world, Invoke(w, true, body)) == world
    ensures world.wrappers[w].impl.Some? ==>
      var thrown := Exec(world, Invoke(w, true, body));
      && w in thrown.wrappers && thrown.wrappers[w] == Pointers(world.wrappers[w].table, None)
      && OthersSame(world, thrown, w, w) && GaveUp(world, thrown, world.wrappers[w].impl)
      && Exec(world, Invoke(w, false, body))
         == ExecAll(thrown.(log := thrown.log + [Invoked(world.wrappers[w].impl.value)]), body)
  {
    assert world.wrappers[w].impl == None ==> Put(world, w, world.wrappers[w]) == world;
  }

  /** The steps of a program are done one after the other. */
  lemma {:induction false} ExecInOrder(world: World, first: seq<Op>, later: seq<Op>)
    ensures ExecAll(world, first + later) == ExecAll(ExecAll(world, first), later)
    decreases |first|
  {
    if first == [] {
      assert first + later == later;
    } else {
      assert (first + later)[0] == first[0] && (first + later)[1..] == first[1..] + later;
      ExecInOrder(Exec(world, first[0]), first[1..], later);
    }
  }

  lemma ExecOne(world: World, op: Op)
    ensures ExecAll(world, [op]) == Exec(world, op) && ExecAll(world, []) == world
  {
  }

  /* ----- What every run keeps ----- */

  /** Each live target has exactly one owner, whose function table is the one of
      the target's type; nothing else is owned. */
  ghost predicate Owned(wrappers: map<Id, Pointers>, live: map<Target, HandlerType>) {
    && (forall i :: i in wrappers && wrappers[i].impl.Some? ==>
          wrappers[i].impl.value in live && wrappers[i].table == Some(live[wrappers[i].impl.value]))
    && (forall i, j :: i in wrappers && j in wrappers && wrappers[i].impl.Some? && wrappers[i].impl == wrappers[j].impl
          ==> i == j)
    && (forall t :: t in live ==> exists i :: i in wrappers && wrappers[i].impl == Some(t))
  }

  /** The events of one target, in order. */
  function History(log: seq<Event>, t: Target): seq<Event> {
    if log == [] then []
    else
      var k := |log| - 1;
      History(log[..k], t) + if log[k].target == t then [log[k]] else []
  }

  /** The complete history of a target that is gone: freed once; if it was ever
      constructed, destroyed once before that; and if it was invoked, invoked
      once after its storage was freed. */
  predicate Over(h: seq<Event>, t: Target) {
    || h == [Allocated(t), Freed(t)]
    || h == [Allocated(t), Constructed(t), Destroyed(t), Freed(t)]
    || h == [Allocated(t), Constructed(t), Destroyed(t), Freed(t), Invoked(t)]
  }

  predicate LifeCycle(world: World, t: Target) {
    var h := History(world.log, t);
    if t in world.live then h == [Allocated(t), Constructed(t)]
    else if t >= world.next then h == []
    else Over(h, t)
  }

  ghost predicate Sound(world: World) {
    && Owned(world.wrappers, world.live)
    && (forall t :: t in world.live ==> t < world.next)
    && (forall t: Target :: LifeCycle(world, t))
  }

  lemma Appended(log: seq<Event>, e: Event, t: Target)
    ensures History(log + [e], t) == History(log, t) + if e.target == t then [e] else []
  {
    assert (log + [e])[..|log|] == log;
  }

  lemma AppendedTwo(log: seq<Event>, e: Event, f: Event, t: Target)
    ensures History(log + [e, f], t) ==
      History(log, t) + (if e.target == t then [e] else []) + (if f.target == t then [f] else [])
  {
    assert log + [e, f] == log + [e] + [f];
    Appended(log, e, t);
    Appended(log + [e], f, t);
  }

  lemma PutEmptySound(world: World, i: Id)
    requires Sound(world) && i !in world.wrappers
    ensures Sound(Put(world, i, EMPTY))
  {
    var after := Put(world, i, EMPTY);
    forall t | t in after.live
      ensures exists j :: j in after.wrappers && after.wrappers[j].impl == Some(t)
    {
      var j :| j in world.wrappers && world.wrappers[j].impl == Some(t);
      assert after.wrappers[j].impl == Some(t);
    }
    assert forall t: Target :: LifeCycle(world, t) ==> LifeCycle(after, t);
  }

  lemma ExchangeSound(world: World, i: Id, j: Id)
    requires Sound(world) && i in world.wrappers && j in world.wrappers
    ensures Sound(Exchange(world, i, j))
  {
    var after := Exchange(world, i, j);
    forall t | t in after.live
      ensures exists k :: k in after.wrappers && after.wrappers[k].impl == Some(t)
    {
      var k :| k in world.wrappers && world.wrappers[k].impl == Some(t);
      var moved := if k == i then j else if k == j then i else k;
      assert after.wrappers[moved].impl == Some(t);
    }
    assert forall t: Target :: LifeCycle(world, t) ==> LifeCycle(after, t);
  }

  lemma ReleaseOwned(world: World, i: Id, p: Pointers)
    requires Sound(world) && i in world.wrappers && p.impl == None
    ensures Owned(Release(world, i, p).wrappers, Release(world, i, p).live)
  {
    var after := Release(world, i, p);
    forall t | t in after.live
      ensures exists k :: k in after.wrappers && after.wrappers[k].impl == Some(t)
    {
      var k :| k in world.wrappers && world.wrappers[k].impl == Some(t);
      assert after.wrappers[k].impl == Some(t);
    }
  }

  lemma ReleaseSound(world: World, i: Id, p: Pointers)
    requires Sound(world) && i in world.wrappers && p.impl == None
    ensures Sound(Release(world, i, p))
    ensures var t := world.wrappers[i].impl;
            t.Some? ==> t.value !in Release(world, i, p).live && t.value < world.next
                        && History(Release(world, i, p).log, t.value)
                           == [Allocated(t.value), Constructed(t.value), Destroyed(t.value), Freed(t.value)]
  {
    var after := Release(world, i, p);
    ReleaseOwned(world, i, p);
    match world.wrappers[i].impl
    case None =>
      assert forall t: Target :: LifeCycle(world, t) ==> LifeCycle(after, t);
    case Some(gone) =>
      forall t: Target
        ensures LifeCycle(after, t)
        ensures t == gone ==> History(after.log, t) == [Allocated(t), Constructed(t), Destroyed(t), Freed(t)]
      {
        assert LifeCycle(world, t);
        AppendedTwo(world.log, Destroyed(gone), Freed(gone), t);
      }
  }

  lemma CreateSound(world: World, i: Id, handlerType: HandlerType)
    requires Sound(world) && i !in world.wrappers
    ensures Sound(Create(world, i, handlerType))
  {
    var after := Create(world, i, handlerType);
    forall t | t in after.live
      ensures exists k :: k in after.wrappers && after.wrappers[k].impl == Some(t)
    {
      if t == world.next {
        assert after.wrappers[i].impl == Some(t);
      } else {
        var k :| k in world.wrappers && world.wrappers[k].impl == Some(t);
        assert after.wrappers[k].impl == Some(t);
      }
    }
    forall t: Target
      ensures LifeCycle(after, t)
    {
      assert LifeCycle(world, t);
      AppendedTwo(world.log, Allocated(world.next), Constructed(world.next), t);
    }
  }

  lemma FailedCreateSound(world: World)
    requires Sound(world)
    ensures Sound(world.(next := world.next + 1, log := world.log + [Allocated(world.next), Freed(world.next)]))
  {
    var after := world.(next := world.next + 1, log := world.log + [Allocated(world.next), Freed(world.next)]);
    forall t: Target
      ensures LifeCycle(after, t)
    {
      assert LifeCycle(world, t);
      AppendedTwo(world.log, Allocated(world.next), Freed(world.next), t);
    }
  }

  lemma RemoveSound(world: World, i: Id)
    requires Sound(world) && i in world.wrappers && world.wrappers[i].impl == None
    ensures Sound(world.(wrappers := world.wrappers - {i}))
  {
    var after := world.(wrappers := world.wrappers - {i});
    forall t | t in after.live
      ensures exists k :: k in after.wrappers && after.wrappers[k].impl == Some(t)
    {
      var k :| k in world.wrappers && world.wrappers[k].impl == Some(t);
      assert after.wrappers[k].impl == Some(t);
    }
    assert forall t: Target :: LifeCycle(world, t) ==> LifeCycle(after, t);
  }

  lemma InvokeSound(world: World, i: Id, moveThrows: bool)
    requires Sound(world) && i in world.wrappers
    ensures Sound(Called(world, i, moveThrows))
    ensures var t := world.wrappers[i].impl;
            t.Some? ==> t.value !in Called(world, i, moveThrows).live
                        && History(Called(world, i, moveThrows).log, t.value)
                           == [Allocated(t.value), Constructed(t.value), Destroyed(t.value), Freed(t.value)]
                              + if moveThrows then [] else [Invoked(t.value)]
  {
    var p := world.wrappers[i];
    ReleaseSound(world, i, p.(impl := None));
    if Runs(world, i, moveThrows) {
      InvokedSound(Release(world, i, p.(impl := None)), p.impl.value);
    }
  }

  /** A target that has been destroyed and freed may be invoked. */
  lemma InvokedSound(released: World, gone: Target)
    requires Sound(released) && gone !in released.live && gone < released.next
    requires History(released.log, gone) == [Allocated(gone), Constructed(gone), Destroyed(gone), Freed(gone)]
    ensures var after := released.(log := released.log + [Invoked(gone)]);
            Sound(after) && History(after.log, gone) == History(released.log, gone) + [Invoked(gone)]
  {
    var after := released.(log := released.log + [Invoked(gone)]);
    forall t: Target
      ensures LifeCycle(after, t)
    {
      assert LifeCycle(released, t);
      Appended(released.log, Invoked(gone), t);
    }
    Appended(released.log, Invoked(gone), gone);
  }

  /** Every step keeps the invariant, and so does everything a handler does
      while it is being invoked. */
  lemma {:induction false} ExecSound(world: World, op: Op)
    requires Sound(world)
    ensures Sound(Exec(world, op))
    decreases op, 1
  {
    if Enabled(world, op) {
      match op
      case ConstructEmpty(w) => PutEmptySound(world, w);
      case Construct(w, handlerType, Created) => CreateSound(world, w, handlerType);
      case Construct(_, _, AllocationThrows) =>
      case Construct(_, _, ConstructorThrows) => FailedCreateSound(world);
      case MoveConstruct(w, from) =>
        PutEmptySound(world, w);
        ExchangeSound(Put(world, w, EMPTY), w, from);
      case MoveAssign(w, from) =>
        ExchangeSound(world, w, from);
        if w != from {
          ReleaseSound(Exchange(world, w, from), from, EMPTY);
        }
      case AssignNull(w) => ReleaseSound(world, w, EMPTY);
      case Swap(w, other) => ExchangeSound(world, w, other);
      case Destroy(w) =>
        ReleaseSound(world, w, EMPTY);
        RemoveSound(Release(world, w, EMPTY), w);
      case Invoke(w, moveThrows, body) =>
        InvokeSound(world, w, moveThrows);
        if Runs(world, w, moveThrows) {
          ExecAllSound(Called(world, w, moveThrows), body);
        }
    }
  }

  lemma {:induction false} ExecAllSound(world: World, ops: seq<Op>)
    requires Sound(world)
    ensures Sound(ExecAll(world, ops))
    decreases ops, 0
  {
    if ops != [] {
      ExecSound(world, ops[0]);
      ExecAllSound(Exec(world, ops[0]), ops[1..]);
    }
  }

  lemma SoundHistories(world: World)
    requires Sound(world)
    ensures forall t: Target :: t < world.next && t !in world.live ==> Over(History(world.log, t), t)
    ensures forall t: Target :: t in world.live ==> History(world.log, t) == [Allocated(t), Constructed(t)]
  {
    forall t: Target
      ensures t < world.next && t !in world.live ==> Over(History(world.log, t), t)
      ensures t in world.live ==> History(world.log, t) == [Allocated(t), Constructed(t)]
    {
      assert LifeCycle(world, t);
    }
  }

  /** Over every run of a program: no target has two owners; each is destroyed
      and freed exactly once, at the latest with the last wrapper; and each is
      invoked at most once, after its storage was freed. */
  lemma EveryRunIsSound(ops: seq<Op>)
    ensures var world := ExecAll(World(map[], map[], 0, []), ops);
            && Sound(world)
            && (world.wrappers == map[] ==> forall t: Target :: t < world.next ==> Over(History(world.log, t), t))
  {
    ExecAllSound(World(map[], map[], 0, []), ops);
    var world := ExecAll(World(map[], map[], 0, []), ops);
    SoundHistories(world);
  }
}
