/**
  What the adapters promise, proved about the model in module Adapter: which signatures
  registration accepts and with which error it refuses the others, what each argument
  position receives, that a payload that fails to decode stops the call before the
  handler runs, how the return values are selected, and that the two specialized
  strategies behave exactly like the general one on the signatures they serve.
*/
module AdapterProperties {
  import opened Wrappers
  import opened Adapter

  // ---------------------------------------------------------------------------
  // Classification
  // ---------------------------------------------------------------------------

  /** No parameter in ps is a custom (payload) type. */
  predicate NoCustomIn(env: Env, ps: seq<GoType>)
  {
    forall i :: 0 <= i < |ps| ==> !env.IsCustom(ps[i])
  }

  /** Once a custom parameter was seen, any further one is a duplicate. */
  lemma {:induction false} ScanAfterCustom(env: Env, ps: seq<GoType>)
    ensures Scan(env, ps, true) == if NoCustomIn(env, ps) then None else Some(DuplicateCustomType)
  {
    if ps != [] {
      ScanAfterCustom(env, ps[1..]);
      if !env.IsCustom(ps[0]) {
        assert NoCustomIn(env, ps) <==> NoCustomIn(env, ps[1..]) by {
          if NoCustomIn(env, ps[1..]) {
            forall i | 0 <= i < |ps| ensures !env.IsCustom(ps[i]) {
              if i > 0 { assert ps[i] == ps[1..][i - 1]; }
            }
          }
        }
      }
    }
  }

  /** Parameters that are not custom leave the scan's verdict to the rest of the list. */
  lemma {:induction false} ScanSkipsNonCustom(env: Env, ps: seq<GoType>, k: nat, seen: bool)
    requires k <= |ps| && NoCustomIn(env, ps[..k])
    ensures Scan(env, ps, seen) == Scan(env, ps[k..], seen)
  {
    if k > 0 {
      assert ps[..k][0] == ps[0];
      assert ps[1..][..k - 1] == ps[..k][1..];
      assert ps[1..][k - 1..] == ps[k..];
      ScanSkipsNonCustom(env, ps[1..], k - 1, seen);
    }
  }

  /**
    Registration succeeds exactly when no two parameters are custom and every custom
    parameter is a pointer.
  */
  lemma {:induction false} AcceptedIff(env: Env, params: seq<GoType>)
    ensures CheckSignature(env, params) == None <==>
      (forall i, j :: 0 <= i < j < |params| ==> !(env.IsCustom(params[i]) && env.IsCustom(params[j]))) &&
      (forall i :: 0 <= i < |params| && env.IsCustom(params[i]) ==> params[i].Pointer?)
  {
    if params != [] {
      var rest := params[1..];
      assert forall i :: 0 < i < |params| ==> params[i] == rest[i - 1];
      if env.IsCustom(params[0]) {
        if params[0].Pointer? {
          ScanAfterCustom(env, rest);
          if !NoCustomIn(env, rest) {
            var k :| 0 <= k < |rest| && env.IsCustom(rest[k]);
            assert env.IsCustom(params[0]) && env.IsCustom(params[k + 1]);
          }
        }
      } else {
        AcceptedIff(env, rest);
        if CheckSignature(env, rest) != None {
          if exists i, j :: 0 <= i < j < |rest| && env.IsCustom(rest[i]) && env.IsCustom(rest[j]) {
            var i, j :| 0 <= i < j < |rest| && env.IsCustom(rest[i]) && env.IsCustom(rest[j]);
            assert env.IsCustom(params[i + 1]) && env.IsCustom(params[j + 1]);
          } else {
            var i :| 0 <= i < |rest| && env.IsCustom(rest[i]) && !rest[i].Pointer?;
            assert env.IsCustom(params[i + 1]);
          }
        }
      }
    }
  }

  /**
    A second custom parameter is refused as a duplicate when the first one is a pointer,
    whatever kind the second one is: the duplicate check comes before the pointer check.
  */
  lemma DuplicateWins(env: Env, params: seq<GoType>, i: nat, j: nat)
    requires i < j < |params|
    requires env.IsCustom(params[i]) && env.IsCustom(params[j])
    requires params[i].Pointer?
    requires NoCustomIn(env, params[..i])
    ensures CheckSignature(env, params) == Some(DuplicateCustomType)
  {
    ScanSkipsNonCustom(env, params, i, false);
    var tail := params[i..];
    assert tail[0] == params[i];
    assert tail[1..] == params[i + 1..];
    ScanAfterCustom(env, params[i + 1..]);
    assert params[i + 1..][j - i - 1] == params[j];
  }

  /** The first custom parameter, when it is not a pointer, is refused by name. */
  lemma FirstNonPointerRejected(env: Env, params: seq<GoType>, i: nat)
    requires i < |params|
    requires env.IsCustom(params[i]) && !params[i].Pointer?
    requires NoCustomIn(env, params[..i])
    ensures CheckSignature(env, params) == Some(CustomTypeNotPointer(params[i]))
  {
    ScanSkipsNonCustom(env, params, i, false);
    assert params[i..][0] == params[i];
  }

  /** A refusal always names a parameter of the signature that is custom and not a pointer. */
  lemma {:induction false} RefusalNamesOffender(env: Env, params: seq<GoType>, seen: bool, t: GoType)
    requires Scan(env, params, seen) == Some(CustomTypeNotPointer(t))
    ensures t in params && env.IsCustom(t) && !t.Pointer?
  {
    if env.IsCustom(params[0]) && !seen && !params[0].Pointer? {
    } else {
      RefusalNamesOffender(env, params[1..], seen || env.IsCustom(params[0]), t);
    }
  }

  // ---------------------------------------------------------------------------
  // Argument resolution
  // ---------------------------------------------------------------------------

  /** A successful resolution gives every position the argument its type calls for, in order. */
  lemma {:induction false} ResolveSuccess(env: Env, types: seq<GoType>, decode: Decoder, ctx: Ctx, r: Request)
    requires Resolve(env, types, decode, ctx, r).Success?
    ensures var values := Resolve(env, types, decode, ctx, r).value;
      |values| == |types| &&
      forall i :: 0 <= i < |types| ==> ArgFor(env, types[i], decode, ctx, r) == Success(values[i])
  {
    if types != [] {
      var n := |types| - 1;
      ResolveSuccess(env, types[..n], decode, ctx, r);
      assert forall i :: 0 <= i < n ==> types[..n][i] == types[i];
    }
  }

  /** Resolution fails with the failure of the first position that cannot be resolved. */
  lemma {:induction false} ResolveFailure(env: Env, types: seq<GoType>, decode: Decoder, ctx: Ctx, r: Request)
    requires Resolve(env, types, decode, ctx, r).Failure?
    ensures exists i :: (0 <= i < |types| &&
      ArgFor(env, types[i], decode, ctx, r) == Failure(Resolve(env, types, decode, ctx, r).error) &&
      forall j :: 0 <= j < i ==> ArgFor(env, types[j], decode, ctx, r).Success?)
  {
    var n := |types| - 1;
    var p := Resolve(env, types[..n], decode, ctx, r);
    if p.Failure? {
      ResolveFailure(env, types[..n], decode, ctx, r);
      var i :| 0 <= i < n && ArgFor(env, types[..n][i], decode, ctx, r) == Failure(p.error) &&
        forall j :: 0 <= j < i ==> ArgFor(env, types[..n][j], decode, ctx, r).Success?;
      assert types[..n][i] == types[i];
      assert forall j :: 0 <= j < i ==> types[..n][j] == types[j];
    } else {
      ResolveSuccess(env, types[..n], decode, ctx, r);
      assert forall j :: 0 <= j < n ==> types[..n][j] == types[j];
    }
  }

  /** Resolution succeeds whenever every position can be resolved. */
  lemma {:induction false} ResolveTotal(env: Env, types: seq<GoType>, decode: Decoder, ctx: Ctx, r: Request)
    requires forall i :: 0 <= i < |types| ==> ArgFor(env, types[i], decode, ctx, r).Success?
    ensures Resolve(env, types, decode, ctx, r).Success?
  {
    if types != [] {
      var n := |types| - 1;
      assert forall i :: 0 <= i < n ==> types[..n][i] == types[i];
      ResolveTotal(env, types[..n], decode, ctx, r);
      assert ArgFor(env, types[n], decode, ctx, r).Success?;
    }
  }

  /**
    When the handler is called, its argument list has one value per parameter, and each
    is the registry's value when the type is registered (checked first), the incoming
    context for the context type, and otherwise a freshly decoded payload.
  */
  lemma HandlerArguments(env: Env, types: seq<GoType>, handler: Handler, outContext: bool,
                         decode: Decoder, ctx: Ctx, r: Request)
    requires Resolve(env, types, decode, ctx, r).Success?
    ensures var args := Resolve(env, types, decode, ctx, r).value;
      InvokeGeneric(env, types, handler, outContext, decode, ctx, r) == Normalize(outContext, ctx, handler(args)) &&
      |args| == |types| &&
      (forall i :: 0 <= i < |types| && types[i] in env.supportTypes ==>
         args[i] == env.supportTypes[types[i]](r)) &&
      (forall i :: 0 <= i < |types| && types[i] !in env.supportTypes && types[i] == env.contextType ==>
         args[i] == CtxVal(ctx)) &&
      (forall i :: 0 <= i < |types| && env.IsCustom(types[i]) ==>
         types[i].Pointer? && decode(r.body, types[i].elem).Success? &&
         args[i] == Obj(types[i], decode(r.body, types[i].elem).value))
  {
    ResolveSuccess(env, types, decode, ctx, r);
  }

  /** Under an accepted signature the only way resolution can fail is a decode failure. */
  lemma AcceptedFailsOnlyOnDecode(env: Env, types: seq<GoType>, decode: Decoder, ctx: Ctx, r: Request)
    requires CheckSignature(env, types) == None
    requires Resolve(env, types, decode, ctx, r).Failure?
    ensures Resolve(env, types, decode, ctx, r).error.DecodeFailed?
  {
    AcceptedIff(env, types);
    ResolveFailure(env, types, decode, ctx, r);
  }

  /**
    Under an accepted signature, a payload that does not decode stops Invoke with that
    decode failure, and the handler is never consulted: any two handlers give the
    same outcome.
  */
  lemma DecodeFailureSkipsHandler(env: Env, types: seq<GoType>, h1: Handler, h2: Handler, outContext: bool,
                                  decode: Decoder, ctx: Ctx, r: Request, k: nat)
    requires CheckSignature(env, types) == None
    requires k < |types| && env.IsCustom(types[k])
    requires DecodePayload(types[k], decode, r).Failure?
    ensures InvokeGeneric(env, types, h1, outContext, decode, ctx, r) ==
            Panicked(DecodePayload(types[k], decode, r).error) ==
            InvokeGeneric(env, types, h2, outContext, decode, ctx, r)
  {
    AcceptedIff(env, types);
    var prefix := types[..k];
    forall i | 0 <= i < k ensures ArgFor(env, prefix[i], decode, ctx, r).Success? {
      assert prefix[i] == types[i];
      assert !env.IsCustom(types[i]);
    }
    ResolveTotal(env, prefix, decode, ctx, r);
    assert types[..k + 1][..k] == prefix;
    assert types[..k + 1][k] == types[k];
    ResolvePrefixFailure(env, types, k + 1, decode, ctx, r);
  }

  // ---------------------------------------------------------------------------
  // Result normalization
  // ---------------------------------------------------------------------------

  /**
    A handler returning (payload, error) behaves as one returning (incoming ctx, payload,
    error): one returns exactly when the other does, with the same triple.
  */
  lemma KeepingContextIsReturningIt(ctx: Ctx, other: Ctx, ret: seq<Value>)
    ensures Normalize(false, ctx, ret).Returned? <==> Normalize(true, other, [CtxVal(ctx)] + ret).Returned?
    ensures Normalize(false, ctx, ret).Returned? ==>
      Normalize(false, ctx, ret) == Normalize(true, other, [CtxVal(ctx)] + ret)
  {
  }

  /** A well-typed return of the declared length never panics, and a nil error slot is no error. */
  lemma DeclaredReturnIsSelected(outContext: bool, ctx: Ctx, ret: seq<Value>)
    requires |ret| == ReturnArity(outContext)
    requires outContext ==> ret[0].CtxVal?
    requires ret[|ret| - 1].Nil? || ret[|ret| - 1].ErrVal?
    ensures var o := Normalize(outContext, ctx, ret);
      o.Returned? &&
      o.payload == ret[|ret| - 2] &&
      (o.err == None <==> ret[|ret| - 1].Nil?) &&
      (!outContext ==> o.outCtx == ctx) &&
      (outContext ==> o.outCtx == ret[0].ctx)
  {
  }

  // ---------------------------------------------------------------------------
  // The specialized strategies agree with the general one
  // ---------------------------------------------------------------------------

  /** simplePlainAdapter is genericAdapter for the signatures () and (context.Context). */
  lemma PlainMatchesGeneric(a: SimplePlainAdapter, env: Env, decode: Decoder, ctx: Ctx, r: Request)
    requires a.inContext ==> env.contextType !in env.supportTypes
    ensures a.Invoke(ctx) ==
      InvokeGeneric(env, if a.inContext then [env.contextType] else [], a.handler, a.outContext, decode, ctx, r)
  {
    if a.inContext {
      var types := [env.contextType];
      assert types[..0] == [];
      assert Resolve(env, types, decode, ctx, r) == Success([] + [CtxVal(ctx)]);
      assert [] + [CtxVal(ctx)] == a.Args(ctx);
    }
  }

  /**
    When the registry also holds the context type, the general strategy hands a
    (context.Context) handler the provider's value, whereas simplePlainAdapter hands it
    the incoming context, so the two may disagree.
  */
  lemma GenericPrefersRegisteredContext(env: Env, handler: Handler, outContext: bool, decode: Decoder, ctx: Ctx, r: Request)
    requires env.contextType in env.supportTypes
    ensures InvokeGeneric(env, [env.contextType], handler, outContext, decode, ctx, r) ==
      Normalize(outContext, ctx, handler([env.supportTypes[env.contextType](r)]))
    ensures SimplePlainAdapter(true, outContext, handler).Invoke(ctx) ==
      Normalize(outContext, ctx, handler([CtxVal(ctx)]))
  {
    var types := [env.contextType];
    assert types[..0] == [];
    assert Resolve(env, types, decode, ctx, r) == Success([] + [env.supportTypes[env.contextType](r)]);
    assert [] + [env.supportTypes[env.contextType](r)] == [env.supportTypes[env.contextType](r)];
  }

  /** simpleUnaryAdapter is genericAdapter for a signature whose only parameter is the payload. */
  lemma UnaryMatchesGeneric(a: SimpleUnaryAdapter, env: Env, decode: Decoder, ctx: Ctx, r: Request)
    requires env.IsCustom(a.argType)
    ensures a.Invoke(decode, ctx, r) == InvokeGeneric(env, [a.argType], a.handler, a.outContext, decode, ctx, r)
  {
    var types := [a.argType];
    assert types[..0] == [];
    match DecodePayload(a.argType, decode, r)
    case Failure(p) =>
      assert Resolve(env, types, decode, ctx, r) == Failure(p);
    case Success(v) =>
      assert Resolve(env, types, decode, ctx, r) == Success([] + [v]);
      assert [] + [v] == [v];
  }

  /**
    simpleUnaryAdapter calls the handler with exactly the decoded payload, and when the
    body does not decode it stops before the handler, whichever handler it holds.
  */
  lemma UnaryCallsHandlerOnlyWithPayload(a: SimpleUnaryAdapter, other: Handler, decode: Decoder, ctx: Ctx, r: Request)
    ensures DecodePayload(a.argType, decode, r).Failure? ==>
      a.Invoke(decode, ctx, r) == Panicked(DecodePayload(a.argType, decode, r).error) ==
      a.(handler := other).Invoke(decode, ctx, r)
    ensures DecodePayload(a.argType, decode, r).Success? ==>
      a.argType.Pointer? && decode(r.body, a.argType.elem).Success? &&
      a.Invoke(decode, ctx, r) ==
        Normalize(a.outContext, ctx, a.handler([Obj(a.argType, decode(r.body, a.argType.elem).value)]))
  {
  }
}
