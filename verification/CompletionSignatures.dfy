/** Completion signatures and the choice of the base class of `async_result`
    for a plain handler. */
module CompletionSignatures {

  datatype Ref = NoRef | Lvalue | Rvalue

  /** `R(Args...)` with an optional ref-qualifier and an optional `noexcept`. */
  datatype Signature = Signature(result: nat, args: seq<nat>, ref: Ref, isNoexcept: bool)

  /** `are_any_lvalue_completion_signatures`: the recursion over the pack. */
  predicate AnyLvalue(sigs: seq<Signature>) {
    sigs != [] && (sigs[0].ref == Lvalue || AnyLvalue(sigs[1..]))
  }

  /** `are_any_rvalue_completion_signatures`. */
  predicate AnyRvalue(sigs: seq<Signature>) {
    sigs != [] && (sigs[0].ref == Rvalue || AnyRvalue(sigs[1..]))
  }

  /** `simple_completion_signature`. */
  function Simple(sig: Signature): Signature {
    Signature(sig.result, sig.args, NoRef, false)
  }

  function SimpleAll(sigs: seq<Signature>): seq<Signature> {
    if sigs == [] then [] else [Simple(sigs[0])] + SimpleAll(sigs[1..])
  }

  lemma {:induction false} AnyMeansSome(sigs: seq<Signature>)
    ensures AnyLvalue(sigs) <==> exists i :: 0 <= i < |sigs| && sigs[i].ref == Lvalue
    ensures AnyRvalue(sigs) <==> exists i :: 0 <= i < |sigs| && sigs[i].ref == Rvalue
  {
    if sigs != [] {
      AnyMeansSome(sigs[1..]);
      assert forall i :: 0 < i < |sigs| ==> sigs[i] == sigs[1..][i - 1];
    }
  }

  lemma {:induction false} SimplifiedAll(sigs: seq<Signature>)
    ensures |SimpleAll(sigs)| == |sigs|
    ensures forall i :: 0 <= i < |sigs| ==> SimpleAll(sigs)[i] == Signature(sigs[i].result, sigs[i].args, NoRef, false)
    ensures !AnyLvalue(SimpleAll(sigs)) && !AnyRvalue(SimpleAll(sigs))
  {
    if sigs != [] {
      SimplifiedAll(sigs[1..]);
      AnyMeansSome(SimpleAll(sigs));
    }
  }

  /** How many specialisations of `async_result` are instantiated, and the
      signatures that reach `completion_handler_async_result`. */
  datatype Base = Base(steps: nat, sigs: seq<Signature>)

  /** The base class of `async_result`: either the handler's result at once, or
      `async_result` again with simplified signatures. */
  function BaseOf(sigs: seq<Signature>): Base
    decreases if AnyRvalue(sigs) then 1 else 0
  {
    SimplifiedAll(sigs);
    if AnyLvalue(sigs) || !AnyRvalue(sigs) then Base(1, sigs)
    else var base := BaseOf(SimpleAll(sigs)); Base(base.steps + 1, base.sigs)
  }

  /** The chain has at most two steps. The second is taken exactly when some
      signature is rvalue-qualified and none is lvalue-qualified, and then
      strips the qualifiers; results and argument lists are never touched. */
  lemma BaseReached(sigs: seq<Signature>)
    ensures 1 <= BaseOf(sigs).steps <= 2 && |BaseOf(sigs).sigs| == |sigs|
    ensures BaseOf(sigs).steps == 2 <==>
      (exists i :: 0 <= i < |sigs| && sigs[i].ref == Rvalue) && (forall i :: 0 <= i < |sigs| ==> sigs[i].ref != Lvalue)
    ensures BaseOf(sigs).steps == 1 ==> BaseOf(sigs).sigs == sigs
    ensures BaseOf(sigs).steps == 2 ==>
      forall i :: 0 <= i < |sigs| ==> BaseOf(sigs).sigs[i] == Signature(sigs[i].result, sigs[i].args, NoRef, false)
  {
    AnyMeansSome(sigs);
    SimplifiedAll(sigs);
  }
}
