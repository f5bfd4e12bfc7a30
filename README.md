# nex handler adapters in Dafny

nex lets an ordinary Go function serve an HTTP endpoint. A handler's parameters are
classified once when it is registered. Each parameter is one of three things:

- an ambient value that a provider in `supportTypes` derives from the request;
- the request's `context.Context`;
- at most one custom payload type, which must be a pointer and is decoded from the JSON body.

On every request an adapter builds a fresh argument list and calls the handler. It then
normalizes the handler's `(payload, error)` or `(ctx, payload, error)` return into the
triple `(context, payload, error)`.

This project models `adatper.go`: the classifier `makeGenericAdapter`, the three
strategies `genericAdapter`, `simplePlainAdapter` and `simpleUnaryAdapter`, and the result
selection that each `Invoke` repeats. It proves what these promise.

- `wrappers.dfy`: module `Wrappers`, with `Option` and `Result`.
- `adapter.dfy`: module `Adapter`, the data model and the operations.
  - Reflection becomes explicit values: `GoType` for a parameter type, `Value` for an argument or return value.
  - The handler is a function from the argument list to the return list.
  - JSON decoding is a `Decoder` function from the body bytes and the element type to a decoded object or an error.
  - `contextType` and the `supportTypes` registry are an `Env` value.
  - `genericAdapter` is a class. `MakeGenericAdapter` fills its `types` array in place, one parameter per loop step. `Invoke` fills a freshly allocated argument array in a loop. Both methods are proved against the pure functions `CheckSignature` and `InvokeGeneric`.
  - The two simple adapters are never modified and have no loops, so they are datatypes with member functions.
- `properties.dfy`: module `AdapterProperties`, the lemmas.

Every Go `panic` on these paths becomes a failure outcome:

- at registration, `RegError`;
- during `Invoke`, `Outcome.Panicked`, for a decode failure, reflect's `Elem` of a non-pointer, a short return list, or a failed type assertion.

`GenericAdapter.Invoke` has no `modifies` clause. Dafny therefore checks that a call
writes nothing that existed before it. Each call builds its own argument list and shares
no state with other calls.

A body that does not decode makes `Invoke` panic (`adatper.go:89-91`, `150-152`). The
model records this as `Panicked(DecodeFailed(e))`, and the handler is not called.

## Model

| member | source | states |
|---|---|---|
| Adapter.MakeGenericAdapter | adatper.go:42-72 | Fails exactly when the left-to-right check fails, and with that check's error. On success it returns a new adapter: `types` holds the parameter types verbatim and in order, `numIn` is their count, the flags and handler are the ones given, and the adapter is `Valid` (its signature is accepted). |
| Adapter.GenericAdapter.constructor | adatper.go:47-54 | Records the flags, handler, `numIn` and registry, and allocates a fresh `types` array of length `numIn`. |
| Adapter.GenericAdapter.Invoke | adatper.go:74-112 | The loop fills a fresh argument array of length `numIn` and stops at the first position that cannot be resolved. Because the adapter is `Valid`, every custom position is a pointer, so reflect's `Elem` cannot panic there. The result equals `InvokeGeneric` (resolve every position, call the handler, normalize), and the adapter is left unchanged. |
| Adapter.ResolvePrefixFailure | adatper.go:80-96 | Once some position fails, the whole argument list fails with that same failure, so nothing after it is evaluated and the handler is not reached. |
| Adapter.Normalize | adatper.go:98-109 | The triple is returned exactly when the return list has the fields read from it. With `outContext`, the new context is `ret[0]`, the payload `ret[1]` and the error slot `ret[2]`. Without it, the incoming context is kept, the payload is `ret[0]` and the error slot `ret[1]`. A nil error slot means no error. An index panic names a missing slot. With `outContext` a first value that is not a context panics before `ret[1]` and `ret[2]` are read. The same code is repeated at lines 129-140 and 157-168. |
| Adapter.SimplePlainAdapter.Args | adatper.go:119-124 | The argument list is `[ctx]` when the handler takes the context and empty otherwise. |
| Adapter.PanicMessage | adatper.go:59-65 | The duplicate panic has the fixed text of line 60. For a named type, the not-a-pointer panic is built from the type's package path and name as line 64 builds it. |
| Adapter.Scan | adatper.go:56-69 | The loop of makeGenericAdapter from a given position, with the `noSupportExists` flag. Only a custom parameter can cause a refusal. An accepted list has every custom parameter a pointer. With the flag already set, an accepted list has no further custom parameter. `ScanAfterCustom` and `ScanSkipsNonCustom` give its exact verdict. |
| Adapter.CheckSignature | adatper.go:56-69 | The verdict on a whole signature. A refusal means some parameter is custom, and acceptance means every custom parameter is a pointer. `AcceptedIff` proves the full if-and-only-if; `DuplicateWins` and `FirstNonPointerRejected` fix which error is reported. |
| Adapter.DecodePayload | adatper.go:88-92 | Succeeds exactly when the type is a pointer and the body decodes into its element type. The value is then the decoded object typed with the pointer type. A failure is the decoder's error for a pointer and reflect's `Elem` panic otherwise. |
| Adapter.ArgFor | adatper.go:81-93 | One argument position. A registered type gets its provider's value, even when it is also the context type. An unregistered context type gets the incoming context. A custom type is decoded. Only a custom position can fail. |
| Adapter.Resolve | adatper.go:79-94 | The argument list built left to right. On success it has one value per parameter, and a failure needs at least one parameter. `ResolveSuccess`, `ResolveFailure` and `ResolveTotal` give the per-position and first-failure characterization. |
| Adapter.ErrorOf | adatper.go:101-103 | The error slot. A nil interface is no error and a non-nil error is passed through unchanged. Any other value fails the `e.(error)` assertion, and the panic names that value. The same code repeats at lines 106-108, 132-134, 137-139, 160-162 and 165-167. |
| Adapter.InvokeGeneric | adatper.go:74-112 | A failed resolution becomes that panic and the handler is not applied. Otherwise the outcome is the normalization of the handler's return on the resolved list. Without `outContext` the incoming context is kept. `HandlerArguments` and `DecodeFailureSkipsHandler` state what the handler receives and when it is skipped. |
| Adapter.SimplePlainAdapter.Invoke | adatper.go:114-143 | Never panics on decoding, since it does not read the request. It returns exactly when the handler's return on `Args(ctx)` has the right shape. Without `outContext` it keeps the incoming context. `PlainMatchesGeneric` proves it equal to the general strategy. |
| Adapter.SimpleUnaryAdapter.Invoke | adatper.go:145-171 | A payload that does not decode gives that panic. A decode panic always carries the decoder's error for the pointer's element type. Without `outContext` it keeps the incoming context. `UnaryMatchesGeneric` and `UnaryCallsHandlerOnlyWithPayload` relate it to the general strategy and to the handler's one argument. |
| AdapterProperties.ScanAfterCustom | adatper.go:58-61 | After one custom parameter has been seen, the rest of the list is accepted exactly when it holds no more custom parameters. Otherwise the error is the duplicate one. |
| AdapterProperties.ScanSkipsNonCustom | adatper.go:56-58 | A leading run of context and ambient parameters can be skipped without changing the verdict. |
| AdapterProperties.AcceptedIff | adatper.go:56-69 | Registration succeeds if and only if no two parameters are custom and every custom parameter is a pointer. |
| AdapterProperties.DuplicateWins | adatper.go:58-65 | Suppose the first custom parameter is a pointer. Then a second custom parameter is refused as a duplicate, whether or not it is a pointer, because the duplicate check runs first. |
| AdapterProperties.FirstNonPointerRejected | adatper.go:63-65 | When the first custom parameter is not a pointer, it is refused and the error names that type. |
| AdapterProperties.RefusalNamesOffender | adatper.go:63-65 | A not-a-pointer refusal always names a type from the signature that is custom and not a pointer. |
| AdapterProperties.ResolveSuccess | adatper.go:79-94 | A resolved argument list has one value per parameter, and each value is the one its parameter's type calls for, in order. |
| AdapterProperties.ResolveFailure | adatper.go:80-94 | A failed resolution fails with the failure of the first position that fails, and every earlier position resolves. |
| AdapterProperties.ResolveTotal | adatper.go:80-94 | Resolution succeeds when every position can be resolved. |
| AdapterProperties.HandlerArguments | adatper.go:79-96 | When resolution succeeds, the handler is called with a list of length `numIn`. A position whose type is in the registry gets the provider's value; the registry is checked first. A position of the context type gets the incoming context. A custom position gets its freshly decoded payload. |
| AdapterProperties.AcceptedFailsOnlyOnDecode | adatper.go:81-91 | With an accepted signature, resolution can fail only by a decode failure, never by reflect's `Elem` of a non-pointer. |
| AdapterProperties.DecodeFailureSkipsHandler | adatper.go:87-96 | With an accepted signature, a payload that does not decode makes `Invoke` panic with that decode error. The outcome is the same whatever the handler is, so the handler is never called. |
| AdapterProperties.KeepingContextIsReturningIt | adatper.go:98-109 | Returning `(payload, err)` gives the same outcome as returning `(incoming ctx, payload, err)`: either both return the same triple or neither returns. |
| AdapterProperties.DeclaredReturnIsSelected | adatper.go:98-109 | A return list of the declared length and types never panics. The payload is the next-to-last value. The error is absent exactly when the last slot is nil. The context is `ret[0]` with `outContext` and the incoming one without it. |
| AdapterProperties.PlainMatchesGeneric | adatper.go:114-143 | `simplePlainAdapter` produces the same outcome as `genericAdapter` for the signature `()`, and for `(context.Context)` provided the context type is not in `supportTypes`. |
| AdapterProperties.GenericPrefersRegisteredContext | adatper.go:82-86 | When `supportTypes` holds the context type, `genericAdapter` gives a `(context.Context)` handler the provider's value (the registry is checked first), while `simplePlainAdapter` gives it the incoming context (line 121). |
| AdapterProperties.UnaryMatchesGeneric | adatper.go:145-171 | `simpleUnaryAdapter` produces the same outcome as `genericAdapter` for a signature whose only parameter is the payload. |
| AdapterProperties.UnaryCallsHandlerOnlyWithPayload | adatper.go:148-155 | `simpleUnaryAdapter` calls the handler with exactly one argument, the decoded payload. If decoding fails it panics with the decode error, whatever handler it holds. |

## Left out

- `reflect` and `encoding/json`: these are foreign library behaviour. A type is a `GoType` value, `Call` is applying a `Handler` function, and decoding is a `Decoder` function. The decoder's field mapping, and the stream it reads, are not modelled.
- `isSupportType`, `supportTypes` and `contextType` are not defined in `adatper.go`. They are the `Env` parameter. `isSupportType` is taken to be membership in `supportTypes`. The adapter keeps the `Env` it was built with, which assumes the package-level registry does not change after registration.
- The `Handler(...)` entry point that chooses a strategy, and its return-shape check, are not part of this model. A short or mistyped return list therefore shows up as the panic it causes in the normalizer.
- `GenericAdapter.Invoke` requires an accepted signature (`Valid`). That is the only kind `makeGenericAdapter` builds. With two custom parameters, Go would decode twice from one body stream, and a pure decoder cannot express that.
- `Kind` lists only non-container kinds. Array, chan, map and slice types have an `Elem`, and that is not modelled.
- A named type of pointer kind (Go `type P *T`) cannot be written as a `GoType`: `Pointer` has no name. Line 63 checks the kind, so Go accepts such a type as a payload; the model has no such type to accept.
- The plain and general strategies agree only while `supportTypes` does not hold the context type. When it does, `genericAdapter` passes the provider's value, because the registry is checked first (`adatper.go:82-84`), whereas `simplePlainAdapter` always passes the incoming context (`adatper.go:121`). `GenericPrefersRegisteredContext` states both outcomes.
- The `cacheArgs` fields are allocated and never read, so they are not modelled.
- The `http.ResponseWriter` argument is ignored by every `Invoke`, so it is not modelled.
- The `inContext` flag of `genericAdapter` is stored but never read by its `Invoke`. The model stores it the same way.
- Concurrency is not modelled, and neither are the tests and benchmarks (`adatper_test.go`, `adatper_bench_test.go`). What the concurrent test relies on is that each call builds its own argument list and writes no shared state. The frame of `GenericAdapter.Invoke` states that, and the simple adapters are pure functions.
- Closing or draining the request body after a decode failure is not modelled, because the code does neither.
