/**
 * Callback and argument signatures, their normalization (the `normalized`
 * signature of `function_traits`) and the registration-time compatibility
 * check `detail::check_compatibility`.
 *
 * A C++ parameter type is described by its base type, whether it is
 * const-qualified and its reference kind; normalization strips the reference
 * and the const qualifier, leaving the base types in order.
 */
module Signatures {

  /** The name of a C++ type with qualifiers and reference removed ("int", "double"). */
  type TypeName = string

  datatype RefKind = NoRef | LValueRef | RValueRef

  /** One declared parameter type or one deduced argument type. */
  datatype Param = Param(base: TypeName, isConst: bool, ref: RefKind)

  datatype ReturnType = Void | Returns(name: TypeName)

  datatype FunctionType = FunctionType(ret: ReturnType, params: seq<Param>)

  /** A normalized signature: the base types of the parameters, in order.
      Callbacks are dispatched by exact equality of these. */
  type Signature = seq<TypeName>

  datatype CompatError = ReturnsValue | MutableReferenceParameter

  /** A non-const lvalue reference, the only parameter kind that cannot bind
      an argument of its normalized (decayed) type. */
  predicate IsMutableRef(p: Param) {
    p.ref == LValueRef && !p.isConst
  }

  /** The normalized signature of a parameter list. */
  function Normalize(params: seq<Param>): (sig: Signature)
    ensures |sig| == |params|
    ensures forall i :: 0 <= i < |params| ==> sig[i] == params[i].base
  {
    if params == [] then [] else [params[0].base] + Normalize(params[1..])
  }

  function SignatureOf(f: FunctionType): Signature {
    Normalize(f.params)
  }

  /** The normalized function type `void(decayed params...)`. */
  function NormalizedType(params: seq<Param>): (f: FunctionType)
    ensures f.ret == Void && |f.params| == |params|
    ensures forall i :: 0 <= i < |params| ==>
              f.params[i] == Param(params[i].base, false, NoRef)
  {
    FunctionType(Void, seq(|params|, i requires 0 <= i < |params| => Param(params[i].base, false, NoRef)))
  }

  /** Whether a `std::function` of the declared parameters is convertible to
      one of the normalized parameters: every parameter must bind an rvalue
      of its decayed type. */
  function AcceptsNormalized(params: seq<Param>): (ok: bool)
    ensures ok <==> forall i :: 0 <= i < |params| ==> !IsMutableRef(params[i])
  {
    if params == [] then true
    else !IsMutableRef(params[0]) && AcceptsNormalized(params[1..])
  }

  /** The diagnostics of the two static assertions of `check_compatibility`,
      in source order; the empty sequence means the callback is accepted. */
  function CheckCompatibility(f: FunctionType): (errs: seq<CompatError>)
    ensures errs == [] <==>
              f.ret == Void && forall i :: 0 <= i < |f.params| ==> !IsMutableRef(f.params[i])
    ensures ReturnsValue in errs <==> f.ret != Void
    ensures MutableReferenceParameter in errs <==>
              exists i :: 0 <= i < |f.params| && IsMutableRef(f.params[i])
    ensures |errs| <= 2 && (|errs| == 2 ==> errs == [ReturnsValue, MutableReferenceParameter])
  {
    (if f.ret == Void then [] else [ReturnsValue])
    + (if AcceptsNormalized(f.params) then [] else [MutableReferenceParameter])
  }

  /** The check applied by `detail::call` to the normalized argument signature
      never fails, and normalizing it again gives the same signature. */
  lemma NormalizedIsCompatible(args: seq<Param>)
    ensures CheckCompatibility(NormalizedType(args)) == []
    ensures SignatureOf(NormalizedType(args)) == Normalize(args)
  {
  }
}
