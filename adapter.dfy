/**
  The handler adapters of nex: a handler function with a flexible parameter list is
  classified once (MakeGenericAdapter), and every request then resolves the handler's
  arguments, calls it and normalizes its two or three return values into the triple
  (context, payload, error).

  Go's reflection is replaced by explicit values: a parameter type is a GoType, an
  argument or return value is a Value, the handler is a function from the argument
  list to the return list, and JSON decoding is a function from the request body and
  the element type to a decoded object or an error. Every Go panic on these paths is
  a failure outcome (RegError at registration, Outcome.Panicked at invocation).
*/
module Adapter {
  import opened Wrappers

  /** reflect.Kind of a type other than a pointer. */
  datatype Kind = Bool | Int | Float | String | Struct | Interface | Func

  /** A parameter or payload type as reflection sees it. */
  datatype GoType =
    | Pointer(elem: GoType)                          // *elem, reflect.Ptr
    | Named(pkgPath: string, name: string, kind: Kind)
  {
    /** reflect.Type.Name(): pointer types are unnamed. */
    function Name(): string { if Pointer? then "" else name }

    /** reflect.Type.PkgPath(): pointer types belong to no package. */
    function PkgPath(): string { if Pointer? then "" else pkgPath }
  }

  type Ctx(==)      // a context.Context value
  type Error(==)    // a non-nil Go error
  type Object       // any other value: a provider's result, a decoded record
  type Header       // request metadata that ambient providers read

  datatype Request = Request(header: Header, body: seq<bv8>)

  /** A reflect.Value passed to or returned by the handler. */
  datatype Value =
    | Nil                                  // a nil interface
    | CtxVal(ctx: Ctx)                     // a context.Context
    | ErrVal(err: Error)                   // a non-nil error
    | Obj(typ: GoType, data: Object)       // any other value, with its dynamic type

  /** An entry of supportTypes: derives an ambient value from the request. */
  type Provider = Request -> Value

  /** json.NewDecoder(body).Decode into a fresh instance of the given element type. */
  type Decoder = (seq<bv8>, GoType) -> Result<Object, Error>

  /** The registered function, as reflect.Value.Call sees it. */
  type Handler = seq<Value> -> seq<Value>

  /** The package-level collaborators the adapters consult. */
  datatype Env = Env(contextType: GoType, supportTypes: map<GoType, Provider>)
  {
    predicate IsSupportType(t: GoType) { t in supportTypes }

    /** A parameter that is neither the context type nor an ambient type: the payload. */
    predicate IsCustom(t: GoType) { t != contextType && !IsSupportType(t) }
  }

  /** The two registration panics of makeGenericAdapter. */
  datatype RegError = DuplicateCustomType | CustomTypeNotPointer(typ: GoType)

  /** The text each registration panic carries. */
  function PanicMessage(e: RegError): (m: string)
    ensures e.DuplicateCustomType? ==> m == "function should accept only one customize type"
    ensures e.CustomTypeNotPointer? && e.typ.Named? ==>
      m == "customize type should be a pointer(" + e.typ.pkgPath + "." + e.typ.name + ")"
  {
    match e
    case DuplicateCustomType => "function should accept only one customize type"
    case CustomTypeNotPointer(t) =>
      "customize type should be a pointer(" + t.PkgPath() + "." + t.Name() + ")"
  }

  /** The reasons an Invoke panics instead of returning. */
  datatype Panic =
    | DecodeFailed(err: Error)                 // the body did not decode into the payload
    | ElemOfNonPointer(typ: GoType)            // reflect's Elem on a type without one
    | IndexOutOfRange(index: nat, length: nat) // the handler returned too few values
    | NotAContext(got: Value)                  // ret[0].(context.Context) failed
    | NotAnError(got: Value)                   // e.(error) failed

  /** What an Invoke produces: the triple, or the panic that stopped it. */
  datatype Outcome =
    | Returned(outCtx: Ctx, payload: Value, err: Option<Error>)
    | Panicked(cause: Panic)

  // ---------------------------------------------------------------------------
  // Parameter classification
  // ---------------------------------------------------------------------------

  /**
    The check of makeGenericAdapter over the parameters still to visit; seen says
    that a custom parameter was met earlier. None means the signature is accepted.
  */
  function Scan(env: Env, params: seq<GoType>, seen: bool): (res: Option<RegError>)
    ensures res.Some? ==> exists i :: 0 <= i < |params| && env.IsCustom(params[i])
    ensures res == None ==>
      forall i :: 0 <= i < |params| && env.IsCustom(params[i]) ==> params[i].Pointer?
    ensures seen && res == None ==> forall i :: 0 <= i < |params| ==> !env.IsCustom(params[i])
  {
    if params == [] then None
    else if env.IsCustom(params[0]) then
      if seen then Some(DuplicateCustomType)
      else if !params[0].Pointer? then Some(CustomTypeNotPointer(params[0]))
      else Scan(env, params[1..], true)
    else Scan(env, params[1..], seen)
  }

  /** The verdict of makeGenericAdapter on a parameter list. */
  function CheckSignature(env: Env, params: seq<GoType>): (res: Option<RegError>)
    ensures res.Some? ==> exists i :: 0 <= i < |params| && env.IsCustom(params[i])
    ensures res == None ==>
      forall i :: 0 <= i < |params| && env.IsCustom(params[i]) ==> params[i].Pointer?
  {
    Scan(env, params, false)
  }

  // ---------------------------------------------------------------------------
  // Argument resolution
  // ---------------------------------------------------------------------------

  /** reflect.New(t.Elem()) decoded from the request body, as the handler receives it. */
  function DecodePayload(t: GoType, decode: Decoder, r: Request): (res: Result<Value, Panic>)
    ensures res.Success? <==> t.Pointer? && decode(r.body, t.elem).Success?
    ensures res.Success? ==> res.value == Obj(t, decode(r.body, t.elem).value)
    ensures res.Failure? ==>
      if t.Pointer? then res.error == DecodeFailed(decode(r.body, t.elem).error)
      else res.error == ElemOfNonPointer(t)
  {
    match t
    case Pointer(elem) =>
      (match decode(r.body, elem)
       case Success(d) => Success(Obj(t, d))
       case Failure(e) => Failure(DecodeFailed(e)))
    case Named(_, _, _) => Failure(ElemOfNonPointer(t))
  }

  /** The argument genericAdapter gives a parameter of type t: registry first, then context. */
  function ArgFor(env: Env, t: GoType, decode: Decoder, ctx: Ctx, r: Request): (res: Result<Value, Panic>)
    ensures res.Failure? ==> env.IsCustom(t)
    ensures t in env.supportTypes ==> res == Success(env.supportTypes[t](r))
    ensures t !in env.supportTypes && t == env.contextType ==> res == Success(CtxVal(ctx))
    ensures env.IsCustom(t) ==> res == DecodePayload(t, decode, r)
  {
    if t in env.supportTypes then Success(env.supportTypes[t](r))
    else if t == env.contextType then Success(CtxVal(ctx))
    else DecodePayload(t, decode, r)
  }

  /**
    The argument list for the parameter types, built left to right; the first position
    that fails stops the construction.
  */
  function Resolve(env: Env, types: seq<GoType>, decode: Decoder, ctx: Ctx, r: Request)
    : (res: Result<seq<Value>, Panic>)
    ensures res.Success? ==> |res.value| == |types|
    ensures res.Failure? ==> types != []
  {
    if types == [] then Success([])
    else
      var n := |types| - 1;
      match Resolve(env, types[..n], decode, ctx, r)
      case Failure(p) => Failure(p)
      case Success(vs) =>
        match ArgFor(env, types[n], decode, ctx, r)
        case Failure(p) => Failure(p)
        case Success(v) => Success(vs + [v])
  }

  /** Once a prefix of the parameters fails to resolve, the whole list fails the same way. */
  lemma {:induction false} ResolvePrefixFailure(env: Env, types: seq<GoType>, n: nat, decode: Decoder, ctx: Ctx, r: Request)
    requires n <= |types|
    requires Resolve(env, types[..n], decode, ctx, r).Failure?
    ensures Resolve(env, types, decode, ctx, r) == Resolve(env, types[..n], decode, ctx, r)
    decreases |types|
  {
    if n < |types| {
      var m := |types| - 1;
      assert types[..m][..n] == types[..n];
      ResolvePrefixFailure(env, types[..m], n, decode, ctx, r);
      var prefix := Resolve(env, types[..m], decode, ctx, r);
      assert prefix.Failure?;
      assert Resolve(env, types, decode, ctx, r) == Failure(prefix.error);
    } else {
      assert types[..n] == types;
    }
  }

  // ---------------------------------------------------------------------------
  // Result normalization
  // ---------------------------------------------------------------------------

  /** How many return values the declared return list has: (payload, error) or (ctx, payload, error). */
  function ReturnArity(outContext: bool): nat
  {
    if outContext then 3 else 2
  }

  /** The error slot: a nil interface is no error, anything else must be an error. */
  function ErrorOf(v: Value): (res: Result<Option<Error>, Panic>)
    ensures res == Success(None) <==> v.Nil?
    ensures res.Success? <==> v.Nil? || v.ErrVal?
    ensures v.ErrVal? ==> res == Success(Some(v.err))
    ensures res.Failure? ==> res.error == NotAnError(v)
  {
    match v
    case Nil => Success(None)
    case ErrVal(e) => Success(Some(e))
    case _ => Failure(NotAnError(v))
  }

  /** The return values have what the normalizer reads from them. */
  predicate ReturnShapeOk(outContext: bool, ret: seq<Value>)
  {
    |ret| >= ReturnArity(outContext) &&
    (outContext ==> ret[0].CtxVal?) &&
    ErrorOf(ret[ReturnArity(outContext) - 1]).Success?
  }

  /**
    The result selection at the end of every Invoke: with outContext the handler's
    first value becomes the new context, otherwise the incoming context is kept.
  */
  function Normalize(outContext: bool, ctx: Ctx, ret: seq<Value>): (o: Outcome)
    ensures o.Returned? <==> ReturnShapeOk(outContext, ret)
    ensures o.Returned? ==>
      o.outCtx == (if outContext then ret[0].ctx else ctx) &&
      o.payload == ret[ReturnArity(outContext) - 2] &&
      ErrorOf(ret[ReturnArity(outContext) - 1]) == Success(o.err)
    ensures o.Panicked? && o.cause.IndexOutOfRange? ==>
      o.cause.index < ReturnArity(outContext) && o.cause.index == o.cause.length == |ret|
    ensures outContext && |ret| >= 1 && !ret[0].CtxVal? ==> o == Panicked(NotAContext(ret[0]))
  {
    if outContext then
      if |ret| < 1 then Panicked(IndexOutOfRange(0, |ret|))
      else if !ret[0].CtxVal? then Panicked(NotAContext(ret[0]))
      else if |ret| < 2 then Panicked(IndexOutOfRange(1, |ret|))
      else if |ret| < 3 then Panicked(IndexOutOfRange(2, |ret|))
      else
        match ErrorOf(ret[2])
        case Failure(p) => Panicked(p)
        case Success(err) => Returned(ret[0].ctx, ret[1], err)
    else
      if |ret| < 1 then Panicked(IndexOutOfRange(0, |ret|))
      else if |ret| < 2 then Panicked(IndexOutOfRange(1, |ret|))
      else
        match ErrorOf(ret[1])
        case Failure(p) => Panicked(p)
        case Success(err) => Returned(ctx, ret[0], err)
  }

  // ---------------------------------------------------------------------------
  // The general strategy
  // ---------------------------------------------------------------------------

  /** What genericAdapter.Invoke produces: resolve every argument, call, normalize. */
  function InvokeGeneric(env: Env, types: seq<GoType>, handler: Handler, outContext: bool,
                         decode: Decoder, ctx: Ctx, r: Request): (o: Outcome)
    ensures Resolve(env, types, decode, ctx, r).Failure? ==>
      o == Panicked(Resolve(env, types, decode, ctx, r).error)
    ensures Resolve(env, types, decode, ctx, r).Success? ==>
      o == Normalize(outContext, ctx, handler(Resolve(env, types, decode, ctx, r).value))
    ensures !outContext && o.Returned? ==> o.outCtx == ctx
  {
    match Resolve(env, types, decode, ctx, r)
    case Failure(p) => Panicked(p)
    case Success(values) => Normalize(outContext, ctx, handler(values))
  }

  /** The adapter for handlers with any mix of ambient, context and one payload parameter. */
  class GenericAdapter {
    const inContext: bool
    const outContext: bool
    const handler: Handler
    const numIn: nat
    const types: array<GoType>
    const env: Env

    /** What makeGenericAdapter establishes: one type per parameter, and an accepted signature. */
    ghost predicate Valid()
      reads this, types
    {
      types.Length == numIn && CheckSignature(env, types[..]) == None
    }

    constructor (inContext: bool, outContext: bool, handler: Handler, numIn: nat, env: Env)
      ensures this.inContext == inContext && this.outContext == outContext
      ensures this.handler == handler && this.numIn == numIn && this.env == env
      ensures fresh(types) && types.Length == numIn
    {
      this.inContext := inContext;
      this.outContext := outContext;
      this.handler := handler;
      this.numIn := numIn;
      this.env := env;
      this.types := new GoType[numIn];
    }

    /** Each call fills its own argument array; the adapter itself is never written. */
    method Invoke(decode: Decoder, ctx: Ctx, r: Request) returns (o: Outcome)
      requires Valid()
      ensures o == InvokeGeneric(env, types[..], handler, outContext, decode, ctx, r)
    {
      var values := new Value[numIn](_ => Nil);
      var i := 0;
      while i < numIn
        invariant 0 <= i <= numIn
        invariant Resolve(env, types[..i], decode, ctx, r) == Success(values[..i])
      {
        var typ := types[i];
        assert types[..i + 1][..i] == types[..i];
        if typ in env.supportTypes {
          values[i] := env.supportTypes[typ](r);
        } else if typ == env.contextType {
          values[i] := CtxVal(ctx);
        } else {
          // Valid makes every custom parameter a pointer, so Elem never panics here.
          assert typ.Pointer?;
          var d := decode(r.body, typ.elem);
          if d.Failure? {
            ResolvePrefixFailure(env, types[..], i + 1, decode, ctx, r);
            return Panicked(DecodeFailed(d.error));
          }
          values[i] := Obj(typ, d.value);
        }
        assert values[..i + 1] == values[..i] + [values[i]];
        i := i + 1;
      }
      assert types[..numIn] == types[..];
      assert values[..numIn] == values[..];
      var ret := handler(values[..]);
      o := Normalize(outContext, ctx, ret);
    }
  }

  /**
    makeGenericAdapter: records the parameter types one by one and fails on the first
    parameter that makes the signature unacceptable.
  */
  method MakeGenericAdapter(handler: Handler, params: seq<GoType>, inContext: bool, outContext: bool, env: Env)
    returns (res: Result<GenericAdapter, RegError>)
    ensures res.Failure? <==> CheckSignature(env, params).Some?
    ensures res.Failure? ==> CheckSignature(env, params) == Some(res.error)
    ensures res.Success? ==>
      var a := res.value;
      fresh(a) && fresh(a.types) && a.Valid() &&
      a.types[..] == params && a.numIn == |params| &&
      a.inContext == inContext && a.outContext == outContext &&
      a.handler == handler && a.env == env
  {
    var a := new GenericAdapter(inContext, outContext, handler, |params|, env);
    var noSupportExists := false;
    var i := 0;
    while i < |params|
      invariant 0 <= i <= |params|
      invariant a.types[..i] == params[..i]
      invariant CheckSignature(env, params) == Scan(env, params[i..], noSupportExists)
    {
      var t := params[i];
      assert params[i..][1..] == params[i + 1..];
      if env.IsCustom(t) {
        if noSupportExists {
          return Failure(DuplicateCustomType);
        }
        if !t.Pointer? {
          return Failure(CustomTypeNotPointer(t));
        }
        noSupportExists := true;
      }
      a.types[i] := t;
      i := i + 1;
    }
    assert a.types[..] == a.types[..|params|] == params;
    assert params[|params|..] == [];
    assert CheckSignature(env, a.types[..]) == None;
    return Success(a);
  }

  // ---------------------------------------------------------------------------
  // The two specialized strategies
  // ---------------------------------------------------------------------------

  /** The adapter for handlers without parameters, or with the context only. */
  datatype SimplePlainAdapter = SimplePlainAdapter(inContext: bool, outContext: bool, handler: Handler)
  {
    /** The argument list: the context alone when the handler takes it, nothing otherwise. */
    function Args(ctx: Ctx): (values: seq<Value>)
      ensures |values| == (if inContext then 1 else 0)
      ensures forall i :: 0 <= i < |values| ==> values[i] == CtxVal(ctx)
    {
      if inContext then [CtxVal(ctx)] else []
    }

    /** Never reads the request: the only panics come from the handler's return values. */
    function Invoke(ctx: Ctx): (o: Outcome)
      ensures o.Panicked? ==> !o.cause.DecodeFailed? && !o.cause.ElemOfNonPointer?
      ensures o.Returned? <==> ReturnShapeOk(outContext, handler(Args(ctx)))
      ensures !outContext && o.Returned? ==> o.outCtx == ctx
    {
      Normalize(outContext, ctx, handler(Args(ctx)))
    }
  }

  /** The adapter for handlers whose only parameter is the payload. */
  datatype SimpleUnaryAdapter = SimpleUnaryAdapter(outContext: bool, argType: GoType, handler: Handler)
  {
    /** A payload that does not decode stops the call; otherwise the handler gets it alone. */
    function Invoke(decode: Decoder, ctx: Ctx, r: Request): (o: Outcome)
      ensures DecodePayload(argType, decode, r).Failure? ==>
        o == Panicked(DecodePayload(argType, decode, r).error)
      ensures o.Panicked? && o.cause.DecodeFailed? ==>
        argType.Pointer? && decode(r.body, argType.elem) == Failure(o.cause.err)
      ensures !outContext && o.Returned? ==> o.outCtx == ctx
    {
      match DecodePayload(argType, decode, r)
      case Failure(p) => Panicked(p)
      case Success(data) => Normalize(outContext, ctx, handler([data]))
    }
  }
}
