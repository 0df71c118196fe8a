/** Completion tokens made of executor, allocator and cancellation slot binders
    over a handler, their initiation, and the lookup of what they associate.

    The three binder templates have the same shape, so one constructor `Binder`
    stands for all of them and the bound value says which one it is. A C++
    executor type is the field `kind` of an executor value. */
module Tokens {
  import opened Wrappers

  datatype Kind = ExecutorKind | AllocatorKind | SlotKind

  datatype Value = Executor(kind: nat, id: nat) | Allocator(id: nat) | Slot(id: nat)

  /** A handler has its own associations; a reference wrapper is a handler too,
      but lookups go through it. */
  datatype Token =
    | Handler(id: nat, own: map<Kind, Value>)
    | Binder(value: Value, target: Token)
    | Reference(referent: Token)

  function KindOf(v: Value): Kind {
    match v
    case Executor(_, _) => ExecutorKind
    case Allocator(_) => AllocatorKind
    case Slot(_) => SlotKind
  }

  predicate SameExecutorType(v: Value, w: Value) {
    v.Executor? && w.Executor? && v.kind == w.kind
  }

  /** Construct a binder from a value and an rvalue token. An executor binder
      over an executor binder of the same executor type rebuilds its target
      with its own executor, because the target "uses" that executor. */
  function Bind(v: Value, t: Token): Token
    decreases t
  {
    if t.Binder? && SameExecutorType(v, t.value) then Binder(v, Bind(v, t.target)) else Binder(v, t)
  }

  /** An executor replaces exactly the executors of its own type that lie directly
      below it; everything else stays. */
  lemma BindOutcomes(v: Value, u: Value, t: Token)
    ensures Bind(v, Binder(u, t)) == if v.Executor? && u.Executor? && v.kind == u.kind then Binder(v, Bind(v, t))
                                     else Binder(v, Binder(u, t))
    ensures !t.Binder? ==> Bind(v, t) == Binder(v, t)
  {
  }

  /** Bind a list of values, given outermost first, to a handler. */
  function Build(values: seq<Value>, leaf: Token): Token {
    if values == [] then leaf else Bind(values[0], Build(values[1..], leaf))
  }

  /** The values bound by the consecutive binders of a token, outermost first. */
  function Layers(t: Token): seq<Value> {
    if t.Binder? then [t.value] + Layers(t.target) else []
  }

  /** What is left when all consecutive binders are removed. */
  function Core(t: Token): Token {
    if t.Binder? then Core(t.target) else t
  }

  /* ----- What the constructors build ----- */

  /** Where the run of same-typed executors that contains position `i` starts. */
  function RunStart(values: seq<Value>, i: nat): (start: nat)
    requires i < |values|
    ensures start <= i
  {
    if i > 0 && SameExecutorType(values[i - 1], values[i]) then RunStart(values, i - 1) else i
  }

  lemma {:induction false} RunStartShift(values: seq<Value>, i: nat)
    requires i + 1 < |values|
    ensures RunStart(values, i + 1) ==
      if RunStart(values[1..], i) == 0 && SameExecutorType(values[0], values[1]) then 0
      else RunStart(values[1..], i) + 1
  {
    if i > 0 && SameExecutorType(values[i], values[i + 1]) {
      RunStartShift(values, i - 1);
    }
  }

  /** The run starts with an executor, everything in it up to `i` is an executor
      of the same type, and what comes before it is not. */
  lemma {:induction false} RunStartFirst(values: seq<Value>, i: nat)
    requires i < |values|
    ensures var k := RunStart(values, i);
            && (k < i ==> values[i].Executor?)
            && (k < i ==> forall j :: k <= j <= i ==> values[j].Executor? && values[j].kind == values[i].kind)
            && (k > 0 && values[k - 1].Executor? && values[k].Executor? ==> values[k - 1].kind != values[k].kind)
  {
    if i > 0 && SameExecutorType(values[i - 1], values[i]) {
      RunStartFirst(values, i - 1);
    }
  }

  lemma {:induction false} RunStartKind(values: seq<Value>, i: nat)
    requires i < |values|
    ensures RunStart(values, i) < i ==> SameExecutorType(values[RunStart(values, i)], values[i])
    ensures KindOf(values[RunStart(values, i)]) == KindOf(values[i])
  {
    if i > 0 && SameExecutorType(values[i - 1], values[i]) {
      RunStartKind(values, i - 1);
    }
  }

  /** The value at depth `i` once `v` has been bound over `below`. */
  function Rebound(v: Value, below: seq<Value>, i: nat): Value
    requires 0 < i <= |below|
  {
    if RunStart(below, i - 1) == 0 && SameExecutorType(v, below[0]) then v else below[i - 1]
  }

  /** One construction replaces exactly the leading run of same-typed executors. */
  lemma {:induction false} BindLayers(v: Value, t: Token)
    ensures Core(Bind(v, t)) == Core(t) && |Layers(Bind(v, t))| == |Layers(t)| + 1
    ensures Layers(Bind(v, t))[0] == v
    ensures forall i :: 0 < i <= |Layers(t)| ==> Layers(Bind(v, t))[i] == Rebound(v, Layers(t), i)
  {
    if t.Binder? && SameExecutorType(v, t.value) {
      BindLayers(v, t.target);
      assert Layers(t)[1..] == Layers(t.target);
      forall i | 0 < i <= |Layers(t)|
        ensures Layers(Bind(v, t))[i] == Rebound(v, Layers(t), i)
      {
        if i > 1 {
          RunStartShift(Layers(t), i - 2);
          assert Layers(Bind(v, t.target))[i - 1] == Rebound(v, Layers(t.target), i - 1);
        }
      }
    }
  }

  /** Building a stack keeps the handler and every allocator and slot. Each
      executor becomes the outermost one of its run of adjacent executors of
      the same type. */
  lemma {:induction false} BuiltLayers(values: seq<Value>, leaf: Token)
    requires !leaf.Binder?
    ensures Core(Build(values, leaf)) == leaf
    ensures |Layers(Build(values, leaf))| == |values|
    ensures forall i :: 0 <= i < |values| ==> Layers(Build(values, leaf))[i] == values[RunStart(values, i)]
  {
    if values != [] {
      var rest := values[1..];
      var below := Layers(Build(rest, leaf));
      BuiltLayers(rest, leaf);
      BindLayers(values[0], Build(rest, leaf));
      forall i | 0 < i < |values|
        ensures Layers(Build(values, leaf))[i] == values[RunStart(values, i)]
      {
        assert Layers(Build(values, leaf))[i] == Rebound(values[0], below, i);
        RunStartShift(values, i - 1);
        SameRunStarts(rest, below, i - 1);
        assert below[i - 1] == rest[RunStart(rest, i - 1)];
      }
    }
  }

  /** Overwriting executors inside their runs does not move the runs. */
  lemma {:induction false} SameRunStarts(values: seq<Value>, built: seq<Value>, i: nat)
    requires |values| == |built| && i < |values|
    requires forall j :: 0 <= j < |values| ==> built[j] == values[RunStart(values, j)]
    ensures RunStart(built, i) == RunStart(values, i)
    ensures KindOf(built[0]) == KindOf(values[0]) && built[0] == values[0]
  {
    RunStartKind(values, i);
    if i > 0 {
      RunStartKind(values, i - 1);
      SameRunStarts(values, built, i - 1);
    }
  }

  /** The value at one depth of a built stack, by the fields of the values: it is
      the one at the first depth `k` of its run, where everything from `k` on is
      an executor of the same type and what lies right above is none. */
  lemma BuiltLayer(values: seq<Value>, leaf: Token, i: nat) returns (k: nat)
    requires !leaf.Binder? && i < |values|
    ensures k <= i && |Layers(Build(values, leaf))| == |values| && Layers(Build(values, leaf))[i] == values[k]
    ensures k < i ==>
      values[i].Executor? && forall j :: k <= j <= i ==> values[j].Executor? && values[j].kind == values[i].kind
    ensures k > 0 && values[k - 1].Executor? && values[k].Executor? ==> values[k - 1].kind != values[k].kind
  {
    k := RunStart(values, i);
    BuiltLayers(values, leaf);
    RunStartFirst(values, i);
  }

  /* ----- Initiation ----- */

  /** An argument of the initiation: a value pushed by a binder layer, or one of
      the caller's own. */
  datatype Arg = Pushed(value: Value) | Own(arg: int)

  /** The user's initiation function object, or one wrapped by the `initiate` of
      a binder layer of the given kind. */
  datatype Initiation = User | Wrapper(kind: Kind, inner: Initiation)

  /** The user's initiation was called with this handler and these arguments. */
  datatype Call = Call(handler: Token, args: seq<Arg>)

  /** Call an initiation. A wrapper takes its value off the argument list and
      binds it to the handler again; `None` is a call that does not compile. */
  function Invoke(init: Initiation, handler: Token, args: seq<Arg>): Option<Call> {
    match init
    case User => Some(Call(handler, args))
    case Wrapper(kind, inner) =>
      if args != [] && args[0].Pushed? && KindOf(args[0].value) == kind
      then Invoke(inner, Bind(args[0].value, handler), args[1..])
      else None
  }

  /** `async_initiate` for a token and a number of completion signatures. Only
      with exactly one signature do the binder specialisations apply; a
      handler or a reference wrapper is passed on as it is. */
  function Initiate(init: Initiation, t: Token, args: seq<Arg>, signatures: nat): Option<Call>
    decreases t
  {
    if t.Binder? && signatures == 1
    then Initiate(Wrapper(KindOf(t.value), init), t.target, [Pushed(t.value)] + args, signatures)
    else Invoke(init, t, args)
  }

  /** Peeling all layers and binding them again rebuilds the token from its
      layers, for any initiation and any token whatsoever. */
  lemma {:induction false} InitiationRebuilds(init: Initiation, t: Token, args: seq<Arg>)
    ensures Initiate(init, t, args, 1) == Invoke(init, Build(Layers(t), Core(t)), args)
    decreases t
  {
    if t.Binder? {
      InitiationRebuilds(Wrapper(KindOf(t.value), init), t.target, [Pushed(t.value)] + args);
      assert ([Pushed(t.value)] + args)[1..] == args;
      assert Layers(t)[1..] == Layers(t.target);
    }
  }

  /** No executor binder sits on one of the same type with another executor. */
  predicate Settled(t: Token) {
    t.Binder? ==>
      && Settled(t.target)
      && (t.target.Binder? && SameExecutorType(t.value, t.target.value) ==> t.target.value == t.value)
  }

  lemma {:induction false} BindSettles(v: Value, t: Token)
    requires Settled(t)
    ensures Settled(Bind(v, t)) && Bind(v, t).Binder? && Bind(v, t).value == v
    ensures Bind(v, t) == Binder(v, t) <==> Settled(Binder(v, t))
  {
    if t.Binder? && SameExecutorType(v, t.value) {
      BindSettles(v, t.target);
    }
  }

  lemma {:induction false} BuildSettles(values: seq<Value>, leaf: Token)
    requires Settled(leaf)
    ensures Settled(Build(values, leaf))
  {
    if values != [] {
      BuildSettles(values[1..], leaf);
      BindSettles(values[0], Build(values[1..], leaf));
    }
  }

  lemma {:induction false} RebuildIsIdentity(t: Token)
    ensures Build(Layers(t), Core(t)) == t <==> Settled(t)
  {
    if t.Binder? {
      assert Layers(t)[1..] == Layers(t.target);
      RebuildIsIdentity(t.target);
      if Settled(t.target) {
        BindSettles(t.value, t.target);
      } else {
        CoreIsNoBinder(t);
        BuildSettles(Layers(t), Core(t));
      }
    }
  }

  lemma {:induction false} CoreIsNoBinder(t: Token)
    ensures !Core(t).Binder?
  {
    if t.Binder? {
      CoreIsNoBinder(t.target);
    }
  }

  /** Initiating hands the very same token and arguments to the user's
      initiation, for any number of signatures, exactly when the token is
      settled or is not peeled at all. */
  lemma InitiationKeepsToken(t: Token, args: seq<Arg>, signatures: nat)
    ensures Initiate(User, t, args, signatures) == Some(Call(t, args)) <==> signatures != 1 || Settled(t)
  {
    if signatures == 1 {
      InitiationRebuilds(User, t, args);
      RebuildIsIdentity(t);
    }
  }

  /** Every token that the constructors can build over a handler, a reference
      wrapper or another settled token, including those whose inner executors
      were overwritten on the way, comes through unchanged. */
  lemma BuiltTokenSurvivesInitiation(values: seq<Value>, leaf: Token, args: seq<Arg>, signatures: nat)
    requires Settled(leaf)
    ensures Initiate(User, Build(values, leaf), args, signatures) == Some(Call(Build(values, leaf), args))
  {
    BuildSettles(values, leaf);
    InitiationKeepsToken(Build(values, leaf), args, signatures);
  }

  /* ----- Associated executor, allocator and cancellation slot ----- */

  /** The value a type supplies itself: the specialisation for a binder, or a
      handler's own nested type. */
  function Supplies(t: Token, k: Kind): Option<Value> {
    match t
    case Binder(v, _) => if KindOf(v) == k then Some(v) else None
    case Handler(_, own) => if k in own then Some(own[k]) else None
    case Reference(_) => None
  }

  /** Where the lookup is forwarded otherwise: the associator of a binder or the
      specialisation for a reference wrapper. */
  function ForwardsTo(t: Token): (r: Option<Token>)
    ensures r.Some? ==> r.value < t
  {
    match t
    case Binder(_, target) => Some(target)
    case Reference(referent) => Some(referent)
    case Handler(_, _) => None
  }

  /** `associated_executor`, `associated_allocator` and
      `associated_cancellation_slot`: the three-way dispatch. */
  function Associated(t: Token, k: Kind, candidate: Value): Value
    decreases t
  {
    if Supplies(t, k).Some? then Supplies(t, k).value
    else match ForwardsTo(t)
      case Some(u) => Associated(u, k, candidate)
      case None => candidate
  }

  /** The three lookups at every form of a token. */
  lemma LookupOutcomes(t: Token, x: nat, y: nat, own: map<Kind, Value>, k: Kind, candidate: Value)
    ensures Associated(Handler(x, own), k, candidate) == if k in own then own[k] else candidate
    ensures Associated(Reference(t), k, candidate) == Associated(t, k, candidate)
    ensures Associated(Binder(Executor(x, y), t), k, candidate)
      == if k == ExecutorKind then Executor(x, y) else Associated(t, k, candidate)
    ensures Associated(Binder(Allocator(x), t), k, candidate)
      == if k == AllocatorKind then Allocator(x) else Associated(t, k, candidate)
    ensures Associated(Binder(Slot(x), t), k, candidate)
      == if k == SlotKind then Slot(x) else Associated(t, k, candidate)
  {
  }

  /** All bound values from the outside in, looking through references. */
  function AllLayers(t: Token): seq<Value> {
    match t
    case Binder(v, target) => [v] + AllLayers(target)
    case Reference(referent) => AllLayers(referent)
    case Handler(_, _) => []
  }

  function Innermost(t: Token): (h: Token)
    ensures h.Handler?
  {
    match t
    case Binder(_, target) => Innermost(target)
    case Reference(referent) => Innermost(referent)
    case Handler(_, _) => t
  }

  /** The values of one kind, in order. */
  function OfKind(values: seq<Value>, k: Kind): seq<Value> {
    if values == [] then [] else OnlyOfKind(values[0], k) + OfKind(values[1..], k)
  }

  function OnlyOfKind(v: Value, k: Kind): seq<Value> {
    if KindOf(v) == k then [v] else []
  }

  /** The reference answer: the outermost value of the kind, else the fallback. */
  function Outermost(values: seq<Value>, k: Kind, fallback: Value): Value {
    var found := OfKind(values, k);
    if found != [] then found[0] else fallback
  }

  /** The handler's own value of the kind, else the candidate. */
  function OwnOr(handler: Token, k: Kind, candidate: Value): Value
    requires handler.Handler?
  {
    if k in handler.own then handler.own[k] else candidate
  }

  lemma {:induction false} AssociatedIsOutermost(t: Token, k: Kind, candidate: Value)
    ensures Associated(t, k, candidate) == Outermost(AllLayers(t), k, OwnOr(Innermost(t), k, candidate))
  {
    match t
    case Binder(_, target) =>
      assert AllLayers(t)[1..] == AllLayers(target);
      AssociatedIsOutermost(target, k, candidate);
    case Reference(referent) =>
      AssociatedIsOutermost(referent, k, candidate);
    case Handler(_, _) =>
  }

  /** Binding a value puts it in front of what a token associates already,
      whatever the construction overwrites inside. */
  lemma {:induction false} BindAssociates(v: Value, t: Token, k: Kind, candidate: Value)
    ensures Associated(Bind(v, t), k, candidate) == if KindOf(v) == k then v else Associated(t, k, candidate)
  {
    if t.Binder? && SameExecutorType(v, t.value) {
      BindAssociates(v, t.target, k, candidate);
    }
  }

  /** The associations of a stack built over anything, a reference wrapper for
      one, are the outermost of the values it was built from, and below them
      those of what it was built over: overwriting never changes an answer, nor
      the handler that is finally called. */
  lemma {:induction false} BuiltAssociates(values: seq<Value>, leaf: Token, k: Kind, candidate: Value)
    ensures Associated(Build(values, leaf), k, candidate) == Outermost(values, k, Associated(leaf, k, candidate))
    ensures Core(Build(values, leaf)) == Core(leaf)
  {
    if values != [] {
      var below := Build(values[1..], leaf);
      BuiltAssociates(values[1..], leaf, k, candidate);
      BindAssociates(values[0], below, k, candidate);
      BindLayers(values[0], below);
    }
  }

  lemma Associative<T>(xs: seq<T>, ys: seq<T>, zs: seq<T>)
    ensures xs + (ys + zs) == xs + ys + zs
  {
  }

  lemma {:induction false} OfKindConcat(xs: seq<Value>, ys: seq<Value>, k: Kind)
    ensures OfKind(xs + ys, k) == OfKind(xs, k) + OfKind(ys, k)
  {
    if xs == [] {
      assert xs + ys == ys;
    } else {
      assert (xs + ys)[0] == xs[0] && (xs + ys)[1..] == xs[1..] + ys;
      OfKindConcat(xs[1..], ys, k);
      Associative(OnlyOfKind(xs[0], k), OfKind(xs[1..], k), OfKind(ys, k));
    }
  }

  lemma AroundPair(outer: seq<Value>, x: Value, y: Value, inner: seq<Value>, k: Kind)
    ensures OfKind(outer + [x, y] + inner, k)
      == OfKind(outer, k) + (OnlyOfKind(x, k) + OnlyOfKind(y, k)) + OfKind(inner, k)
  {
    OfKindConcat(outer + [x, y], inner, k);
    OfKindConcat(outer, [x, y], k);
    OfPair(x, y, k);
  }

  lemma OfPair(x: Value, y: Value, k: Kind)
    ensures OfKind([x, y], k) == OnlyOfKind(x, k) + OnlyOfKind(y, k)
  {
    assert [x, y][1..] == [y] && OfKind([y], k) == OnlyOfKind(y, k) + [];
  }

  /** The values of one kind come in the same order after the swap. */
  lemma SwapKeepsOrder(outer: seq<Value>, x: Value, y: Value, inner: seq<Value>, k: Kind)
    requires KindOf(x) != KindOf(y)
    ensures OfKind(outer + [x, y] + inner, k) == OfKind(outer + [y, x] + inner, k)
  {
    AroundPair(outer, x, y, inner, k);
    AroundPair(outer, y, x, inner, k);
    assert OnlyOfKind(x, k) + OnlyOfKind(y, k) == OnlyOfKind(y, k) + OnlyOfKind(x, k);
  }

  /** Swapping adjacent layers of different kinds changes no association and not
      the handler that is finally called, whatever the stack is built over and
      even where the swap brings executor binders together or takes them apart. */
  lemma SwapKeepsAssociations(outer: seq<Value>, x: Value, y: Value, inner: seq<Value>,
                              leaf: Token, k: Kind, candidate: Value)
    requires KindOf(x) != KindOf(y)
    ensures var t, u := Build(outer + [x, y] + inner, leaf), Build(outer + [y, x] + inner, leaf);
            Associated(t, k, candidate) == Associated(u, k, candidate) && Core(t) == Core(u) == Core(leaf)
  {
    SwapKeepsOrder(outer, x, y, inner, k);
    BuiltAssociates(outer + [x, y] + inner, leaf, k, candidate);
    BuiltAssociates(outer + [y, x] + inner, leaf, k, candidate);
  }
}
