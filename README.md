# SASToken_Create, modelled in Dafny

`SASToken_Create(key, scope, keyName, expiry)` builds the Shared Access Signature token of the
Azure C shared utility library:

    SharedAccessSignature sr=<scope>&sig=<signature>&se=<expiry>&skn=<keyName>

The signature is `URL_Encode(Base64_Encode(HMAC-SHA256(decodedKey, scope + "\n" + expiry)))`, and
`decodedKey` is the Base64 decoding of the key's text. The function works on STRING and BUFFER
handles. It allocates a hash BUFFER and two STRINGs, grows the STRINGs in place by copy and
concatenation, and calls collaborators that may fail. It returns a fresh STRING holding the token,
or NULL when anything fails. On every path it releases every handle it acquired except the one it
returns.

The implementation file is not part of this model. Its behaviour is fixed by the mock
expectations of `c/tests/sastoken_unittests/sastoken_unittests.cpp`, which this model follows call
by call.

The project has four modules:

- `Wrappers` (`wrappers.dfy`): the `Option` type that the fallible collaborators return.
- `Handles` (`handles.dfy`): the handle world.
  - `StringHandle` and `BufferHandle` are classes whose contents change in place. NULL is `null`.
  - The `Heap` class holds the collaborators (`Library`) and a fault oracle: the n-th fallible
    allocation or append fails exactly when n is in `faults`.
  - It also keeps ghost bookkeeping: the `live` handles, every handle ever `acquired`, every handle
    `freed`, the log of collaborator `calls`, and the log of fallible heap `steps`. Each step
    records its kind (BUFFER_new, STRING_new, STRING_copy, STRING_concat,
    STRING_concat_with_STRING) and the text it passes.
  - Deleting requires a live handle or NULL, so a double release cannot verify.
- `TokenFormat` (`token_format.dfy`): the signed text and the token as pure functions. It includes
  a parser that reads a token back into its four fields, with the round-trip and soundness lemmas
  showing that the format determines its fields.
- `SasToken` (`sastoken.dfy`): `Create` and the steps it is built from, as methods over the heap.
  - The steps follow the order of the expected calls.
  - They are proved against the specification function `Expected`, the token or None, the
    call log `CallLog`, and the step log `HeapLog`.
  - A plan lists the heap steps of one chain in the tested order, each with its text (for
    example `TailPlan`: "&se=", the expiry text, "&skn=", the key name). `Chain` is the prefix of a
    plan that is made when the chain stops at its first faulted step.
  - Lemmas about `Expected` say when it is NULL and what a returned token contains.

Expiry. The requirement comment at line 247 of the test file speaks of the current time plus
3600 seconds. The expectations, however, pass the `expiry` argument itself to `size_tToString`
(for example line 238), and they mock no clock. The model follows the expectations: the expiry text
is `size_tToString` of the argument, formatted into a 32-byte buffer (`sizeof` of the 32-character
test array at line 48).

Release of the decoded key. The expectations list `BUFFER_delete` of the decoded key next to its
decoding. The key's bytes are still read for the HMAC later (lines 427-428). The model therefore
releases it after the token is built. Release is stated as sets of handles, so the order of
releases is not part of any contract.

## Model

| member | source | states |
|---|---|---|
| `SasToken.Create` | c/tests/sastoken_unittests/sastoken_unittests.cpp:165-960 | A NULL key, scope or key name gives NULL and leaves the heap untouched. Otherwise the result is non-NULL exactly when `Expected` is a token, and it then holds that token in a fresh STRING. The collaborator calls are exactly `CallLog`. The caller's handles stay live. Every other handle acquired during the call is released and the token is not. The number of fallible heap steps made is exactly `HeapSteps`, so no allocation or append follows a failed one. The heap steps made, in order and with the text each passes, are exactly `HeapLog`. A decode failure acquires nothing; a failed expiry conversion releases the decoded key and makes no heap step. |
| `SasToken.CreateWithKey` | c/tests/sastoken_unittests/sastoken_unittests.cpp:229-960 | `size_tToString` of the expiry into a buffer of `ExpiryBufferSize` is called once. When it fails the result is NULL and no heap step is made and no handle acquired or released. Otherwise the result is the token of `TokenFor` in a fresh STRING, or NULL, and the heap steps are the chain of `TokenPlan`. |
| `SasToken.BuildToken` | c/tests/sastoken_unittests/sastoken_unittests.cpp:248-960 | After the expiry is formatted, the result is the token of `TokenFor` in a fresh STRING, or NULL. The signing calls are made only when the allocations and the signed-text appends succeed. Exactly `TokenSteps` heap steps are made: the chain stops at the first failed step and goes past the signature only when signing succeeds. The steps made, with their texts, are the chain of `TokenPlan`: the allocations, the signed-text appends and the assembly steps. Only the token stays live, and the hash BUFFER and the signed-text STRING are released on every path, NULL ones included. |
| `SasToken.AllocateWorkspace` | c/tests/sastoken_unittests/sastoken_unittests.cpp:248-315 | BUFFER_new, then two STRING_new, stopping at the first failure: exactly `Attempted` of the three steps are made and logged as the chain of `AllocationPlan`, a NULL hash BUFFER leaves the signed-text STRING NULL and a NULL signed-text STRING leaves the result NULL. All three are obtained exactly when none of the three allocation steps is faulted; each is fresh and empty, and the handles obtained are added to the live set. |
| `SasToken.AppendToBeSigned` | c/tests/sastoken_unittests/sastoken_unittests.cpp:317-404 | Three appends, scope then "\n" then expiry text, stopping at the first failure: exactly `Attempted` of the three steps are made, and the log holds each step made with the text it appended (the chain of `SignedTextPlan`). They succeed exactly when none of the three steps is faulted, and then the STRING holds `ToBeSigned(scope, expiry)`. |
| `SasToken.CompleteToken` | c/tests/sastoken_unittests/sastoken_unittests.cpp:248-960 | With a NULL result (an allocation failed) nothing is filled and no step made. Otherwise the result STRING is returned exactly when the signed-text appends, the signature and the eight assembly steps all succeed, and then it holds `TokenText`. The steps made are the three signed-text appends up to the first failure, and the eight assembly steps up to the first failure only when signing succeeds. The steps, with their texts, are the chain of `CompletionPlan`. Otherwise the partly built result is released and NULL returned, so no partial token escapes. The hash BUFFER and the signed-text STRING are released on every path, NULL ones included. |
| `SasToken.FillToken` | c/tests/sastoken_unittests/sastoken_unittests.cpp:317-911 | Succeeds exactly when the signed-text appends, the signature and the eight assembly steps all succeed, and the result then holds `TokenText`. The steps, with their texts, are the chain of `CompletionPlan`, and the signing calls are made only when the three appends succeed. The live set is unchanged and every handle acquired inside is released. |
| `SasToken.Sign` | c/tests/sastoken_unittests/sastoken_unittests.cpp:408-531 | HMAC of the signed text under the decoded key's bytes into the hash BUFFER, Base64_Encode of the hash, URL_Encode of that, stopping at the first failure. The URL-encoded STRING is non-NULL exactly when `Signature` is defined, and then holds it. The calls are exactly `SigningCalls`. |
| `SasToken.SignAndAssemble` | c/tests/sastoken_unittests/sastoken_unittests.cpp:408-531 | Succeeds exactly when the signature exists and none of the eight assembly steps is faulted, and the result then holds the token. No assembly step is made when signing fails, and otherwise the eight steps up to the first failure, logged as the chain of `AssemblyPlan` for the signature obtained. The Base64 and URL-encoded signatures are released on every path, so the live set is unchanged. |
| `SasToken.AssembleToken` | c/tests/sastoken_unittests/sastoken_unittests.cpp:535-950 | STRING_copy of "SharedAccessSignature sr=" and then seven appends in the tested order, stopping at the first failure: exactly `Attempted` of the eight steps are made, and the log holds each with its text (the chain of `AssemblyPlan`). Succeeds exactly when none of the eight steps is faulted, and the result then equals `TokenText(scope, signature, expiry, keyName)`. |
| `SasToken.AssembleHead` | c/tests/sastoken_unittests/sastoken_unittests.cpp:535-715 | STRING_copy of the prefix, then appends of the scope, "&sig=" and the signature, stopping at the first failure; the log holds each step made with its text (the chain of `HeadPlan`). Succeeds exactly when none of the four steps is faulted, and the result then holds the token up to the signature. |
| `SasToken.AssembleTail` | c/tests/sastoken_unittests/sastoken_unittests.cpp:717-911 | Appends of "&se=", the expiry text, "&skn=" and the key name, stopping at the first failure; the log holds each step made with its text (the chain of `TailPlan`). Succeeds exactly when none of the four steps is faulted, and the result then has the expiry and key name fields appended. |
| `SasToken.Attempted` | c/tests/sastoken_unittests/sastoken_unittests.cpp:248-911 | The steps a chain makes when it stops at the first failure: all of them when none is faulted; otherwise the last step made is faulted and every step before it succeeded. |
| `SasToken.AttemptedSplit` | c/tests/sastoken_unittests/sastoken_unittests.cpp:248-911 | A chain over two windows makes the second window's steps only when the whole first window succeeds. |
| `SasToken.ChainSplit` | c/tests/sastoken_unittests/sastoken_unittests.cpp:248-911 | The steps made by a chain over two plans are those of the first, then those of the second only when the whole first plan succeeds. |
| `SasToken.CompletionChain` | c/tests/sastoken_unittests/sastoken_unittests.cpp:317-911 | The completion steps are the signed-text appends up to the first failure, then the assembly steps only when all three appends and the signing succeed. |
| `SasToken.TokenChain` | c/tests/sastoken_unittests/sastoken_unittests.cpp:248-911 | The steps after the expiry is formatted are the allocations up to the first failure, then the completion steps only when all three allocations succeed. |
| `SasToken.HeapStepsBound` | c/tests/sastoken_unittests/sastoken_unittests.cpp:248-960 | At most fourteen heap steps are made, all fourteen when a token is returned, and after a failed step none follows it. |
| `SasToken.FaultGivesNull` | c/tests/sastoken_unittests/sastoken_unittests.cpp:248-911 | A failure of any one of the fourteen allocations and appends makes the result NULL, whatever the collaborators return. |
| `SasToken.NoFaultGivesToken` | c/tests/sastoken_unittests/sastoken_unittests.cpp:914-960 | With no heap failure and every collaborator succeeding, the result is the token built from the decoded key, the formatted expiry and the signature of `scope + "\n" + expiry`. |
| `SasToken.TokenForFields` | c/tests/sastoken_unittests/sastoken_unittests.cpp:943-950 | A returned token parses back to exactly the scope, signature, expiry text and key name it was built from, provided the first three hold no '&'. |
| `SasToken.NoFaultMeans` | c/tests/sastoken_unittests/sastoken_unittests.cpp:248-404 | The recursive fault-window predicate agrees with its direct reading: no step number in the window is faulted. |
| `TokenFormat.ParseTokenText` | c/tests/sastoken_unittests/sastoken_unittests.cpp:943-950 | Round trip: the token of four fields, the first three without '&', parses back to those fields. |
| `TokenFormat.ParseTokenSound` | c/tests/sastoken_unittests/sastoken_unittests.cpp:943-950 | Whatever parses is the token of the fields it parses to, and those fields hold no '&'. |
| `TokenFormat.TokenTextInjective` | c/tests/sastoken_unittests/sastoken_unittests.cpp:943-950 | Two tokens with '&'-free scope, signature and expiry are equal only when all four fields are equal. |
| `TokenFormat.ToBeSignedInjective` | c/tests/sastoken_unittests/sastoken_unittests.cpp:929-931 | The signed text `scope + "\n" + expiry` determines both the scope and the expiry text, when the expiry text has no newline. |
| `Handles.Heap.StringNew` | c/tests/sastoken_unittests/sastoken_unittests.cpp:57-58 | A fresh empty STRING, or NULL exactly when the oracle faults this step. The new handle becomes live and acquired. The step is logged. |
| `Handles.Heap.BufferNew` | c/tests/sastoken_unittests/sastoken_unittests.cpp:81-82 | A fresh empty BUFFER, or NULL exactly when the oracle faults this step. The new handle becomes live and acquired. The step is logged. |
| `Handles.Heap.StringConcat` | c/tests/sastoken_unittests/sastoken_unittests.cpp:61-62 | Appends the text in place exactly when this step is not faulted; otherwise the STRING is unchanged. The step is logged with the text. |
| `Handles.Heap.StringConcatWithString` | c/tests/sastoken_unittests/sastoken_unittests.cpp:64-65 | Appends the other STRING's text in place exactly when this step is not faulted. The step is logged with that text. |
| `Handles.Heap.StringCopy` | c/tests/sastoken_unittests/sastoken_unittests.cpp:76-77 | Replaces the STRING's text exactly when this step is not faulted. The step is logged with the new text. |
| `Handles.Heap.StringDelete` | c/tests/sastoken_unittests/sastoken_unittests.cpp:67-68 | Releases a live STRING and accepts NULL. A released handle leaves the live set for the freed set. |
| `Handles.Heap.BufferDelete` | c/tests/sastoken_unittests/sastoken_unittests.cpp:84-85 | Releases a live BUFFER and accepts NULL. A released handle leaves the live set for the freed set. |
| `Handles.Heap.Base64Decoder` | c/tests/sastoken_unittests/sastoken_unittests.cpp:97-98 | A fresh BUFFER holding the decoding of the text, or NULL when decoding fails. The call is logged. |
| `Handles.Heap.Base64Encode` | c/tests/sastoken_unittests/sastoken_unittests.cpp:94-95 | A fresh STRING holding the encoding of the BUFFER's bytes, or NULL when encoding fails. The call is logged. |
| `Handles.Heap.UrlEncode` | c/tests/sastoken_unittests/sastoken_unittests.cpp:100-101 | A fresh STRING holding the URL encoding of the STRING's text, or NULL when encoding fails. The call is logged. |
| `Handles.Heap.HmacSha256ComputeHash` | c/tests/sastoken_unittests/sastoken_unittests.cpp:103-104 | Writes the MAC of the payload under the key into the hash BUFFER and reports OK, or reports an error and leaves the BUFFER unchanged. The call is logged with the key and payload. |
| `Handles.Heap.SizeToString` | c/tests/sastoken_unittests/sastoken_unittests.cpp:106-107 | `lib.sizeToString` of the value and the capacity: the text, or a failure. The call is logged with value and capacity. |

## Left out

- `c/inc/xio.h` and `c/inc/tlsio_wolfssl.h`: declarations of an I/O interface and a TLS adapter,
  with no behaviour of the token builder.
- Collaborator internals. HMAC-SHA256 (RFC 2104 over FIPS 180-4), Base64 (section 4 of RFC 4648),
  percent-encoding (section 2.1 of RFC 3986) and `size_tToString` are arbitrary functions that may
  fail. Digest length, alphabet and decimal form are not claimed. The '&'-freedom that the parsing
  lemmas need is therefore a hypothesis, not a derived fact.
- The wall clock. The expiry is the argument as given (see above).
- Integer width: `expiry` is an unbounded natural number; `size_t` overflow is not modelled.
- Memory exhaustion itself. Each allocation or append fails exactly when its step number is in the
  oracle's fault set, which covers every combination of failures the expectations inject.
- The accessor calls `STRING_c_str`, `STRING_length`, `BUFFER_u_char` and `BUFFER_length`. The model
  reads a handle's contents directly. The HMAC receives the decoded key's bytes and the signed
  text, which stand for the pointer and length pairs the expectations check.
- The order of releases, which the expectations do not fix. Release is stated with sets of handles.
- The step log records each fallible heap step's kind and text, but not which handle it targets.
  That a chain grows the right STRING is stated by the text that STRING holds on success, and on
  failure that STRING is released.
- Strings are Dafny strings of Unicode characters, not NUL-terminated byte strings. A text holding
  '\0' is appended whole, where the C STRING functions would stop at the NUL, and the HMAC receives
  the text itself rather than its byte length from `STRING_length`. The model accepts every C string
  and more, so no property is lost on C's inputs.
- `Handles.Heap.HmacSha256ComputeHash`: the mock does not say what a failed HMAC leaves in the hash
  BUFFER. The model leaves it unchanged. After a failure the BUFFER is only released, never read.
- `Handles.Heap.StringConcat`, `Handles.Heap.StringConcatWithString` and `Handles.Heap.StringCopy`:
  the mocks do not say what a failed append leaves in the STRING. The model leaves it unchanged.
  Every caller releases that STRING on failure, so nothing depends on the choice.
- The test suite's mutexes and memory-debug set-up (lines 136-163): test infrastructure, not behaviour.
