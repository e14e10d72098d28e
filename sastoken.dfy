/**
 * SASToken_Create: builds a Shared Access Signature token from a Base64 key,
 * a scope, a key name and an expiry, over the STRING/BUFFER heap. Every
 * failure gives NULL; every handle acquired on the way is released, except
 * the returned token.
 */
module SasToken {
  import opened Wrappers
  import opened Handles
  import opened TokenFormat

  /** The size of the character buffer that size_tToString formats the expiry into. */
  const ExpiryBufferSize: nat := 32

  /**
   * The fallible heap steps after the expiry is formatted, each a point where
   * the fault oracle may fail it: BUFFER_new, two STRING_new, three appends
   * to the signed text, one STRING_copy and seven appends to the token.
   */
  const FallibleSteps: nat := 14

  /** The signature segment: URL_Encode(Base64_Encode(HMAC-SHA256(key, message))). */
  function Signature(lib: Library, key: Bytes, message: string): Option<string>
  {
    match lib.hmacSha256(key, message)
    case None => None
    case Some(hash) =>
      match lib.base64Encode(hash)
      case None => None
      case Some(text) => lib.urlEncode(text)
  }

  /** None of the `count` fallible steps from the `from`-th on is failed by the oracle. */
  predicate NoFault(faults: set<nat>, from: nat, count: nat)
    decreases count
  {
    count == 0 || (from !in faults && NoFault(faults, from + 1, count - 1))
  }

  /** A window of fallible steps is fault-free exactly when both of its parts are. */
  lemma {:induction false} NoFaultSplit(faults: set<nat>, from: nat, first: nat, second: nat)
    ensures NoFault(faults, from, first + second) <==> NoFault(faults, from, first) && NoFault(faults, from + first, second)
    decreases first
  {
    if first > 0 {
      NoFaultSplit(faults, from + 1, first - 1, second);
    }
  }

  /**
   * How many of the `count` fallible steps from the `from`-th on a chain
   * attempts when it stops at the first failure: all of them when none
   * fails, otherwise those up to and including the first failing one.
   */
  function Attempted(faults: set<nat>, from: nat, count: nat): (r: nat)
    ensures r <= count
    ensures NoFault(faults, from, count) ==> r == count
    ensures !NoFault(faults, from, count) ==> 0 < r && from + r - 1 in faults && NoFault(faults, from, r - 1)
    decreases count
  {
    if count == 0 then 0
    else if from in faults then 1
    else 1 + Attempted(faults, from + 1, count - 1)
  }

  /** A chain over two windows attempts the second only when the first is fault-free. */
  lemma {:induction false} AttemptedSplit(faults: set<nat>, from: nat, first: nat, second: nat)
    ensures Attempted(faults, from, first + second)
              == if NoFault(faults, from, first) then first + Attempted(faults, from + first, second)
                 else Attempted(faults, from, first)
    decreases first
  {
    if first > 0 {
      AttemptedSplit(faults, from + 1, first - 1, second);
    }
  }

  /**
   * One more step of a chain: the window is fault-free exactly when it is
   * without its last step and that step succeeds, and the last step is
   * attempted exactly when the steps before it all succeeded.
   */
  lemma NoFaultExtend(faults: set<nat>, from: nat, count: nat)
    ensures NoFault(faults, from, count + 1) <==> NoFault(faults, from, count) && from + count !in faults
    ensures Attempted(faults, from, count + 1) == if NoFault(faults, from, count) then count + 1 else Attempted(faults, from, count)
  {
    NoFaultSplit(faults, from, count, 1);
    AttemptedSplit(faults, from, count, 1);
  }

  /**
   * The steps a chain following `plan` makes when it stops at its first
   * failure: the first `Attempted` steps of the plan.
   */
  function Chain<T>(faults: set<nat>, from: nat, plan: seq<T>): seq<T>
  {
    plan[..Attempted(faults, from, |plan|)]
  }

  /** A chain over `a + b` makes the steps of `a`, and those of `b` only when all of `a` succeed. */
  lemma ChainSplit<T>(faults: set<nat>, from: nat, a: seq<T>, b: seq<T>)
    ensures Chain(faults, from, a + b)
              == Chain(faults, from, a) + if NoFault(faults, from, |a|) then Chain(faults, from + |a|, b) else []
  {
    AttemptedSplit(faults, from, |a|, |b|);
    if NoFault(faults, from, |a|) {
      var k := Attempted(faults, from + |a|, |b|);
      assert (a + b)[..|a| + k] == a + b[..k];
    } else {
      var k := Attempted(faults, from, |a|);
      assert (a + b)[..k] == a[..k];
    }
  }

  /** Concatenation of step logs is associative. */
  lemma Associative<T>(a: seq<T>, b: seq<T>, c: seq<T>)
    ensures a + b + c == a + (b + c)
  {
  }

  /** The allocations: the hash BUFFER, the signed-text STRING, the result STRING. */
  const AllocationPlan: seq<Step> := [BufferNewStep, StringNewStep, StringNewStep]

  /** The appends that build the signed text: the scope, a newline, the expiry text. */
  function SignedTextPlan(scope: string, expiryText: string): seq<Step>
  {
    [ConcatWithStringStep(scope), ConcatStep("\n"), ConcatStep(expiryText)]
  }

  /** The first steps of the token: the prefix copied, then the scope, "&sig=" and the signature. */
  function HeadPlan(scope: string, signature: string): seq<Step>
  {
    [CopyStep(Prefix), ConcatWithStringStep(scope), ConcatStep(SignatureLabel), ConcatWithStringStep(signature)]
  }

  /** The last steps of the token: "&se=", the expiry text, "&skn=" and the key name. */
  function TailPlan(expiryText: string, keyName: string): seq<Step>
  {
    [ConcatStep(ExpiryLabel), ConcatStep(expiryText), ConcatStep(KeyNameLabel), ConcatWithStringStep(keyName)]
  }

  /** The eight steps that write the token into the result STRING. */
  function AssemblyPlan(scope: string, signature: string, expiryText: string, keyName: string): seq<Step>
  {
    HeadPlan(scope, signature) + TailPlan(expiryText, keyName)
  }

  /** The steps after the allocations: the signed text, then the token when signing succeeds. */
  function CompletionPlan(lib: Library, key: Bytes, scope: string, keyName: string, expiryText: string): seq<Step>
  {
    SignedTextPlan(scope, expiryText) +
    match Signature(lib, key, ToBeSigned(scope, expiryText))
    case None => []
    case Some(signature) => AssemblyPlan(scope, signature, expiryText, keyName)
  }

  /**
   * The steps of the completion chain: the signed-text appends up to the
   * first failure, then the assembly steps up to the first failure, only
   * when all three appends and the signing succeed.
   */
  lemma CompletionChain(lib: Library, key: Bytes, scope: string, keyName: string, expiryText: string,
                        faults: set<nat>, from: nat)
    ensures var signature := Signature(lib, key, ToBeSigned(scope, expiryText));
            Chain(faults, from, CompletionPlan(lib, key, scope, keyName, expiryText))
              == Chain(faults, from, SignedTextPlan(scope, expiryText)) +
                 if NoFault(faults, from, 3) && signature.Some?
                 then Chain(faults, from + 3, AssemblyPlan(scope, signature.value, expiryText, keyName))
                 else []
  {
    var signature := Signature(lib, key, ToBeSigned(scope, expiryText));
    var rest := if signature.Some? then AssemblyPlan(scope, signature.value, expiryText, keyName) else [];
    assert CompletionPlan(lib, key, scope, keyName, expiryText) == SignedTextPlan(scope, expiryText) + rest;
    ChainSplit(faults, from, SignedTextPlan(scope, expiryText), rest);
  }

  /** Every fallible heap step SASToken_Create plans once the expiry is formatted. */
  function TokenPlan(lib: Library, key: Bytes, scope: string, keyName: string, expiryText: string): seq<Step>
  {
    AllocationPlan + CompletionPlan(lib, key, scope, keyName, expiryText)
  }

  /** The steps of the whole chain: the allocations, then the completion only when all three succeed. */
  lemma TokenChain(lib: Library, key: Bytes, scope: string, keyName: string, expiryText: string,
                   faults: set<nat>, from: nat)
    ensures Chain(faults, from, TokenPlan(lib, key, scope, keyName, expiryText))
              == Chain(faults, from, AllocationPlan) +
                 if NoFault(faults, from, 3) then Chain(faults, from + 3, CompletionPlan(lib, key, scope, keyName, expiryText))
                 else []
  {
    ChainSplit(faults, from, AllocationPlan, CompletionPlan(lib, key, scope, keyName, expiryText));
  }

  /** The token once the key is decoded and the expiry formatted, or None. */
  function TokenFor(lib: Library, key: Bytes, scope: string, keyName: string, expiryText: string,
                    faults: set<nat>, from: nat): Option<string>
  {
    match Signature(lib, key, ToBeSigned(scope, expiryText))
    case None => None
    case Some(signature) =>
      if NoFault(faults, from, FallibleSteps) then Some(TokenText(scope, signature, expiryText, keyName))
      else None
  }

  /**
   * The number of fallible heap steps SASToken_Create makes once the expiry
   * is formatted: it stops at the first failing step, and after the six
   * allocation and signed-text steps it goes on only when signing succeeds.
   */
  function TokenSteps(lib: Library, key: Bytes, scope: string, expiryText: string, faults: set<nat>, from: nat): nat
  {
    if Signature(lib, key, ToBeSigned(scope, expiryText)).Some? then Attempted(faults, from, FallibleSteps)
    else Attempted(faults, from, 6)
  }

  /**
   * `TokenFor` and `TokenSteps` by stage: three allocations, three appends
   * of the signed text, the signature, then the copy and seven appends of
   * the token.
   */
  lemma TokenForSteps(lib: Library, key: Bytes, scope: string, keyName: string, expiryText: string,
                      faults: set<nat>, from: nat)
    ensures NoFault(faults, from, 6) <==> NoFault(faults, from, 3) && NoFault(faults, from + 3, 3)
    ensures var signature := Signature(lib, key, ToBeSigned(scope, expiryText));
            TokenFor(lib, key, scope, keyName, expiryText, faults, from)
              == if NoFault(faults, from, 3) && NoFault(faults, from + 3, 3) && signature.Some? && NoFault(faults, from + 6, 8)
                 then Some(TokenText(scope, signature.value, expiryText, keyName))
                 else None
    ensures var signature := Signature(lib, key, ToBeSigned(scope, expiryText));
            TokenSteps(lib, key, scope, expiryText, faults, from)
              == if NoFault(faults, from, 3)
                 then 3 + (if signature.Some? then Attempted(faults, from + 3, 11) else Attempted(faults, from + 3, 3))
                 else Attempted(faults, from, 3)
  {
    NoFaultSplit(faults, from, 3, 11);
    NoFaultSplit(faults, from + 3, 3, 8);
    NoFaultSplit(faults, from, 3, 3);
    AttemptedSplit(faults, from, 3, 11);
    AttemptedSplit(faults, from, 3, 3);
  }

  /**
   * What SASToken_Create returns for non-NULL arguments: the token, or None
   * when decoding, formatting, signing, encoding or any heap step fails.
   */
  function Expected(lib: Library, keyText: string, scope: string, keyName: string, expiry: nat,
                    faults: set<nat>, from: nat): Option<string>
  {
    match lib.base64Decode(keyText)
    case None => None
    case Some(key) =>
      match lib.sizeToString(expiry, ExpiryBufferSize)
      case None => None
      case Some(expiryText) => TokenFor(lib, key, scope, keyName, expiryText, faults, from)
  }

  /**
   * The number of fallible heap steps SASToken_Create makes for non-NULL
   * arguments: none when decoding the key or formatting the expiry fails.
   */
  function HeapSteps(lib: Library, keyText: string, scope: string, expiry: nat, faults: set<nat>, from: nat): nat
  {
    match lib.base64Decode(keyText)
    case None => 0
    case Some(key) =>
      match lib.sizeToString(expiry, ExpiryBufferSize)
      case None => 0
      case Some(expiryText) => TokenSteps(lib, key, scope, expiryText, faults, from)
  }

  /**
   * The fallible heap steps SASToken_Create makes for non-NULL arguments,
   * in order and with the text each passes.
   */
  function HeapLog(lib: Library, keyText: string, scope: string, keyName: string, expiry: nat,
                   faults: set<nat>, from: nat): seq<Step>
  {
    match lib.base64Decode(keyText)
    case None => []
    case Some(key) =>
      match lib.sizeToString(expiry, ExpiryBufferSize)
      case None => []
      case Some(expiryText) => Chain(faults, from, TokenPlan(lib, key, scope, keyName, expiryText))
  }

  /**
   * The collaborator calls SASToken_Create makes while signing `message`:
   * the HMAC, then Base64_Encode of the hash, then URL_Encode of the Base64
   * text, stopping after the first one that fails.
   */
  function SigningCalls(lib: Library, key: Bytes, message: string): seq<Call>
  {
    [HmacSha256Call(key, message)] +
    match lib.hmacSha256(key, message)
    case None => []
    case Some(hash) =>
      [Base64EncodeCall(hash)] +
      match lib.base64Encode(hash)
      case None => []
      case Some(text) => [UrlEncodeCall(text)]
  }

  /**
   * Every collaborator call SASToken_Create makes for non-NULL arguments, in
   * order. Signing is reached only when the three allocations and the three
   * appends of the signed text succeed.
   */
  function CallLog(lib: Library, keyText: string, scope: string, expiry: nat, faults: set<nat>, from: nat): seq<Call>
  {
    [Base64DecoderCall(keyText)] +
    match lib.base64Decode(keyText)
    case None => []
    case Some(key) =>
      [SizeToStringCall(expiry, ExpiryBufferSize)] +
      match lib.sizeToString(expiry, ExpiryBufferSize)
      case None => []
      case Some(expiryText) =>
        if NoFault(faults, from, 6) then SigningCalls(lib, key, ToBeSigned(scope, expiryText)) else []
  }

  /** `NoFault` agrees with its direct reading: no step number of the window is a fault. */
  lemma {:induction false} NoFaultMeans(faults: set<nat>, from: nat, count: nat)
    ensures NoFault(faults, from, count) <==> forall k :: from <= k < from + count ==> k !in faults
    decreases count
  {
    if count > 0 {
      NoFaultMeans(faults, from + 1, count - 1);
    }
  }

  /** A fault at any of the fallible heap steps makes SASToken_Create return NULL. */
  lemma FaultGivesNull(lib: Library, keyText: string, scope: string, keyName: string, expiry: nat,
                       faults: set<nat>, from: nat, k: nat)
    requires from <= k < from + FallibleSteps && k in faults
    ensures Expected(lib, keyText, scope, keyName, expiry, faults, from) == None
  {
    NoFaultMeans(faults, from, FallibleSteps);
  }

  /**
   * Without any fault, and with every collaborator succeeding, SASToken_Create
   * returns the token built from the decoded key, the formatted expiry and
   * the signature of the signed text.
   */
  lemma NoFaultGivesToken(lib: Library, keyText: string, scope: string, keyName: string, expiry: nat,
                          faults: set<nat>, from: nat)
    requires lib.base64Decode(keyText).Some? && lib.sizeToString(expiry, ExpiryBufferSize).Some?
    requires Signature(lib, lib.base64Decode(keyText).value,
                       ToBeSigned(scope, lib.sizeToString(expiry, ExpiryBufferSize).value)).Some?
    requires forall k :: from <= k < from + FallibleSteps ==> k !in faults
    ensures var expiryText := lib.sizeToString(expiry, ExpiryBufferSize).value;
            var signature := Signature(lib, lib.base64Decode(keyText).value, ToBeSigned(scope, expiryText)).value;
            Expected(lib, keyText, scope, keyName, expiry, faults, from) == Some(TokenText(scope, signature, expiryText, keyName))
  {
    NoFaultMeans(faults, from, FallibleSteps);
  }

  /**
   * SASToken_Create makes at most the fourteen fallible heap steps, and all
   * fourteen when it returns a token; after a heap failure it makes no
   * further heap step, so the last step it makes is the failing one.
   */
  lemma HeapStepsBound(lib: Library, keyText: string, scope: string, keyName: string, expiry: nat,
                       faults: set<nat>, from: nat)
    ensures HeapSteps(lib, keyText, scope, expiry, faults, from) <= FallibleSteps
    ensures Expected(lib, keyText, scope, keyName, expiry, faults, from).Some? ==>
              HeapSteps(lib, keyText, scope, expiry, faults, from) == FallibleSteps
    ensures var n := HeapSteps(lib, keyText, scope, expiry, faults, from);
            !NoFault(faults, from, n) ==> from + n - 1 in faults && NoFault(faults, from, n - 1)
  {
  }

  /**
   * A token SASToken_Create returns reads back, field by field, as the scope,
   * the signature, the formatted expiry and the key name it was built from,
   * provided none of the first three contains the field separator '&'.
   */
  lemma TokenForFields(lib: Library, key: Bytes, scope: string, keyName: string, expiryText: string,
                       faults: set<nat>, from: nat)
    requires TokenFor(lib, key, scope, keyName, expiryText, faults, from).Some?
    requires '&' !in scope && '&' !in expiryText
    requires '&' !in Signature(lib, key, ToBeSigned(scope, expiryText)).value
    ensures var signature := Signature(lib, key, ToBeSigned(scope, expiryText)).value;
            ParseToken(TokenFor(lib, key, scope, keyName, expiryText, faults, from).value)
              == Some(Fields(scope, signature, expiryText, keyName))
  {
    var signature := Signature(lib, key, ToBeSigned(scope, expiryText)).value;
    ParseTokenText(scope, signature, expiryText, keyName);
  }

  /**
   * SASToken_Create. NULL arguments give NULL and touch nothing. Otherwise the
   * result is the token `Expected` describes, in a fresh STRING, or NULL. The
   * caller's handles are left as they were, and every handle acquired during
   * the call other than the returned token has been released, once.
   */
  method Create(rt: Heap, key: StringHandle?, scope: StringHandle?, keyName: StringHandle?, expiry: nat)
    returns (token: StringHandle?)
    requires rt.Valid()
    requires key == null || key in rt.live
    requires scope == null || scope in rt.live
    requires keyName == null || keyName in rt.live
    modifies rt
    ensures rt.Valid()
    ensures key == null || scope == null || keyName == null ==> token == null && unchanged(rt)
    ensures key != null && scope != null && keyName != null ==>
              var want := Expected(rt.lib, key.text, scope.text, keyName.text, expiry, rt.faults, old(rt.ops));
              && (token != null <==> want.Some?)
              && (token != null ==> token.text == want.value)
    ensures token != null ==> fresh(token) && token in rt.acquired
    ensures rt.live == old(rt.live) + HandleSet(token) && old(rt.acquired) <= rt.acquired
    ensures rt.freed == old(rt.freed) + (rt.acquired - old(rt.acquired) - HandleSet(token))
    ensures token != null ==> token !in rt.freed
    ensures key != null && scope != null && keyName != null ==>
              rt.calls == old(rt.calls) + CallLog(rt.lib, key.text, scope.text, expiry, rt.faults, old(rt.ops))
    ensures key != null && scope != null && keyName != null ==>
              rt.ops == old(rt.ops) + HeapSteps(rt.lib, key.text, scope.text, expiry, rt.faults, old(rt.ops))
    ensures key != null && scope != null && keyName != null ==>
              rt.steps == old(rt.steps) + HeapLog(rt.lib, key.text, scope.text, keyName.text, expiry, rt.faults, old(rt.ops))
    ensures key != null && scope != null && keyName != null && rt.lib.base64Decode(key.text).None? ==>
              rt.acquired == old(rt.acquired) && rt.ops == old(rt.ops)
    ensures key != null && scope != null && keyName != null && rt.lib.base64Decode(key.text).Some?
            && rt.lib.sizeToString(expiry, ExpiryBufferSize).None? ==>
              && rt.freed - old(rt.freed) == rt.acquired - old(rt.acquired) != {}
              && rt.ops == old(rt.ops)
  {
    if key == null || scope == null || keyName == null {
      return null;
    }
    ghost var calls0 := rt.calls;
    var decodedKey := rt.Base64Decoder(key.text);
    if decodedKey == null {
      return null;
    }
    ghost var calls1 := rt.calls;
    token := CreateWithKey(rt, decodedKey, scope, keyName, expiry);
    Associative(calls0, [Base64DecoderCall(key.text)], rt.calls[|calls1|..]);
    rt.BufferDelete(decodedKey);
  }

  /**
   * The part of SASToken_Create once the key is decoded: formats the expiry
   * into a buffer of `ExpiryBufferSize`, and builds the token only when
   * that succeeds. The decoded key is left to the caller.
   */
  method CreateWithKey(rt: Heap, decodedKey: BufferHandle, scope: StringHandle, keyName: StringHandle, expiry: nat)
    returns (token: StringHandle?)
    requires rt.Valid() && decodedKey in rt.live && scope in rt.live && keyName in rt.live
    modifies rt`ops, rt`steps, rt`live, rt`acquired, rt`freed, rt`calls
    ensures rt.Valid()
    ensures rt.calls == old(rt.calls) +
              ([SizeToStringCall(expiry, ExpiryBufferSize)] +
               match rt.lib.sizeToString(expiry, ExpiryBufferSize)
               case None => []
               case Some(expiryText) =>
                 if NoFault(rt.faults, old(rt.ops), 6) then SigningCalls(rt.lib, decodedKey.bytes, ToBeSigned(scope.text, expiryText)) else [])
    ensures match rt.lib.sizeToString(expiry, ExpiryBufferSize)
            case None =>
              && token == null && rt.ops == old(rt.ops) && rt.steps == old(rt.steps)
              && rt.acquired == old(rt.acquired) && rt.freed == old(rt.freed)
            case Some(expiryText) =>
              var want := TokenFor(rt.lib, decodedKey.bytes, scope.text, keyName.text, expiryText, rt.faults, old(rt.ops));
              && (token != null <==> want.Some?)
              && (token != null ==> token.text == want.value)
              && rt.ops == old(rt.ops) + TokenSteps(rt.lib, decodedKey.bytes, scope.text, expiryText, rt.faults, old(rt.ops))
              && rt.steps == old(rt.steps) + Chain(rt.faults, old(rt.ops), TokenPlan(rt.lib, decodedKey.bytes, scope.text, keyName.text, expiryText))
    ensures token != null ==> fresh(token) && token in rt.acquired
    ensures rt.live == old(rt.live) + HandleSet(token) && old(rt.acquired) <= rt.acquired
    ensures rt.freed == old(rt.freed) + (rt.acquired - old(rt.acquired) - HandleSet(token))
  {
    var expiryText := rt.SizeToString(expiry, ExpiryBufferSize);
    if expiryText.None? {
      token := null;
    } else {
      token := BuildToken(rt, decodedKey, scope, keyName, expiryText.value);
    }
  }

  /**
   * The part of SASToken_Create after the expiry is formatted: allocates the
   * hash buffer, the signed text and the result, fills them, and releases
   * the hash buffer and the signed text on every path (NULL ones included).
   */
  method BuildToken(rt: Heap, decodedKey: BufferHandle, scope: StringHandle, keyName: StringHandle,
                    expiryText: string) returns (token: StringHandle?)
    requires rt.Valid() && decodedKey in rt.live && scope in rt.live && keyName in rt.live
    modifies rt`ops, rt`steps, rt`live, rt`acquired, rt`freed, rt`calls
    ensures rt.Valid()
    ensures rt.calls == old(rt.calls) +
              if NoFault(rt.faults, old(rt.ops), 6) then SigningCalls(rt.lib, decodedKey.bytes, ToBeSigned(scope.text, expiryText)) else []
    ensures var want := TokenFor(rt.lib, decodedKey.bytes, scope.text, keyName.text, expiryText, rt.faults, old(rt.ops));
            && (token != null <==> want.Some?)
            && (token != null ==> token.text == want.value)
    ensures rt.ops == old(rt.ops) + TokenSteps(rt.lib, decodedKey.bytes, scope.text, expiryText, rt.faults, old(rt.ops))
    ensures rt.steps == old(rt.steps) + Chain(rt.faults, old(rt.ops), TokenPlan(rt.lib, decodedKey.bytes, scope.text, keyName.text, expiryText))
    ensures token != null ==> fresh(token) && token in rt.acquired
    ensures rt.live == old(rt.live) + HandleSet(token) && old(rt.acquired) <= rt.acquired
    ensures rt.freed == old(rt.freed) + (rt.acquired - old(rt.acquired) - HandleSet(token))
  {
    ghost var live0, acquired0, freed0, ops0, steps0 := rt.live, rt.acquired, rt.freed, rt.ops, rt.steps;
    var hash, toBeHashed, result := AllocateWorkspace(rt);
    ghost var live1, acquired1, ops1, steps1 := rt.live, rt.acquired, rt.ops, rt.steps;
    token := CompleteToken(rt, decodedKey, hash, toBeHashed, result, scope, keyName, expiryText);
    BuildAccounting(rt.lib, decodedKey.bytes, scope.text, keyName.text, expiryText, rt.faults,
                    result != null, token != null, if token != null then token.text else "",
                    ops0, ops1, rt.ops, steps0, steps1, rt.steps);
    Accounting(HandleSet(hash), HandleSet(toBeHashed), HandleSet(result), HandleSet(token),
               live0, acquired0, freed0, live1, acquired1, rt.live, rt.acquired, rt.freed);
  }

  /**
   * The outcome and step bookkeeping of BuildToken, on values alone: the
   * allocation chain, then the completion chain only when all three
   * allocations succeed, give the token of `TokenFor` and make `TokenSteps`
   * steps, namely the chain of `TokenPlan`.
   */
  lemma BuildAccounting(lib: Library, key: Bytes, scope: string, keyName: string, expiryText: string, faults: set<nat>,
                        obtained: bool, filled: bool, text: string,
                        ops0: nat, ops1: nat, ops2: nat, steps0: seq<Step>, steps1: seq<Step>, steps2: seq<Step>)
    requires ops1 == ops0 + Attempted(faults, ops0, 3) && steps1 == steps0 + Chain(faults, ops0, AllocationPlan)
    requires obtained <==> NoFault(faults, ops0, 3)
    requires !obtained ==> !filled
    requires obtained ==>
               var signature := Signature(lib, key, ToBeSigned(scope, expiryText));
               && (filled <==> NoFault(faults, ops1, 3) && signature.Some? && NoFault(faults, ops1 + 3, 8))
               && (filled ==> text == TokenText(scope, signature.value, expiryText, keyName))
    requires obtained ==>
               && ops2 == ops1 + (if Signature(lib, key, ToBeSigned(scope, expiryText)).Some? then Attempted(faults, ops1, 11)
                                  else Attempted(faults, ops1, 3))
               && steps2 == steps1 + Chain(faults, ops1, CompletionPlan(lib, key, scope, keyName, expiryText))
    requires !obtained ==> ops2 == ops1 && steps2 == steps1
    ensures filled <==> TokenFor(lib, key, scope, keyName, expiryText, faults, ops0).Some?
    ensures filled ==> text == TokenFor(lib, key, scope, keyName, expiryText, faults, ops0).value
    ensures ops2 == ops0 + TokenSteps(lib, key, scope, expiryText, faults, ops0)
    ensures steps2 == steps0 + Chain(faults, ops0, TokenPlan(lib, key, scope, keyName, expiryText))
  {
    TokenForSteps(lib, key, scope, keyName, expiryText, faults, ops0);
    TokenChain(lib, key, scope, keyName, expiryText, faults, ops0);
    var rest := if obtained then Chain(faults, ops0 + 3, CompletionPlan(lib, key, scope, keyName, expiryText)) else [];
    assert steps2 == steps1 + rest;
    Associative(steps0, Chain(faults, ops0, AllocationPlan), rest);
  }

  /**
   * The handle bookkeeping of BuildToken, on sets alone: the hash buffer,
   * the signed text and the result are acquired; filling the result
   * acquires and releases its own handles, and releases the result unless
   * it becomes the token; the hash buffer and the signed text are released
   * at the end. Then exactly the token stays live, and every other handle
   * acquired on the way is released.
   */
  lemma Accounting(hash: set<object>, toBeHashed: set<object>, result: set<object>, token: set<object>,
                   live0: set<object>, acquired0: set<object>, freed0: set<object>,
                   live1: set<object>, acquired1: set<object>,
                   live2: set<object>, acquired2: set<object>, freed2: set<object>)
    requires live1 == live0 + (hash + toBeHashed + result) && acquired1 == acquired0 + (hash + toBeHashed + result)
    requires hash + toBeHashed + result !! live0 + acquired0 && hash + toBeHashed !! result
    requires token <= result && acquired1 <= acquired2
    requires live2 == live1 - (result - token) - toBeHashed - hash
    requires freed2 == freed0 + (acquired2 - acquired1) + (result - token) + toBeHashed + hash
    ensures live2 == live0 + token
    ensures freed2 == freed0 + (acquired2 - acquired0 - token)
    ensures acquired0 <= acquired2 && token <= acquired2
  {
  }

  /**
   * The allocation chain of SASToken_Create: the hash BUFFER, then the
   * STRING for the signed text, then the result STRING, stopping at the
   * first allocation that fails. Whatever was allocated is returned, so the
   * caller can release it.
   */
  method AllocateWorkspace(rt: Heap) returns (hash: BufferHandle?, toBeHashed: StringHandle?, result: StringHandle?)
    requires rt.Valid()
    modifies rt`ops, rt`steps, rt`live, rt`acquired
    ensures rt.Valid()
    ensures result != null <==> NoFault(rt.faults, old(rt.ops), 3)
    ensures rt.ops == old(rt.ops) + Attempted(rt.faults, old(rt.ops), 3)
    ensures rt.steps == old(rt.steps) + Chain(rt.faults, old(rt.ops), AllocationPlan)
    ensures hash == null ==> toBeHashed == null
    ensures toBeHashed == null ==> result == null
    ensures result != null ==> && hash != null && toBeHashed != null && toBeHashed != result
                               && hash.bytes == [] && toBeHashed.text == "" && result.text == ""
    ensures hash != null ==> fresh(hash)
    ensures toBeHashed != null ==> fresh(toBeHashed)
    ensures result != null ==> fresh(result)
    ensures rt.live == old(rt.live) + (HandleSet(hash) + HandleSet(toBeHashed) + HandleSet(result))
    ensures rt.acquired == old(rt.acquired) + (HandleSet(hash) + HandleSet(toBeHashed) + HandleSet(result))
    ensures HandleSet(hash) + HandleSet(toBeHashed) + HandleSet(result) !! old(rt.live) + old(rt.acquired)
    ensures HandleSet(hash) + HandleSet(toBeHashed) !! HandleSet(result)
  {
    ghost var from := rt.ops;
    NoFaultExtend(rt.faults, from, 0);
    NoFaultExtend(rt.faults, from, 1);
    NoFaultExtend(rt.faults, from, 2);
    toBeHashed, result := null, null;
    hash := rt.BufferNew();
    if hash != null {
      toBeHashed := rt.StringNew();
      if toBeHashed != null {
        result := rt.StringNew();
      }
    }
  }

  /**
   * Fills the workspace when all three allocations succeeded (a NULL result
   * means one failed, and nothing is filled), and keeps the result only when
   * it holds the whole token; otherwise the partly built result is
   * released, so no partial token escapes. The hash BUFFER and the signed
   * text, whichever were allocated, are released in every case.
   */
  method CompleteToken(rt: Heap, decodedKey: BufferHandle, hash: BufferHandle?, toBeHashed: StringHandle?,
                       result: StringHandle?, scope: StringHandle, keyName: StringHandle, expiryText: string)
    returns (token: StringHandle?)
    requires rt.Valid() && decodedKey in rt.live && scope in rt.live && keyName in rt.live
    requires hash != null ==> hash in rt.live && decodedKey != hash
    requires toBeHashed != null ==> toBeHashed in rt.live && toBeHashed != scope && toBeHashed != keyName
    requires result != null ==>
               && hash != null && toBeHashed != null && result in rt.live && toBeHashed.text == ""
               && result != scope && result != keyName && result != toBeHashed
    modifies rt`ops, rt`steps, rt`live, rt`acquired, rt`freed, rt`calls, hash, toBeHashed, result
    ensures rt.Valid()
    ensures rt.calls == old(rt.calls) +
              if result != null && NoFault(rt.faults, old(rt.ops), 3) then SigningCalls(rt.lib, decodedKey.bytes, ToBeSigned(scope.text, expiryText)) else []
    ensures token == null || token == result
    ensures result != null ==>
              var signature := Signature(rt.lib, decodedKey.bytes, ToBeSigned(scope.text, expiryText));
              && (token != null <==> NoFault(rt.faults, old(rt.ops), 3) && signature.Some? && NoFault(rt.faults, old(rt.ops) + 3, 8))
              && (token != null ==> token.text == TokenText(scope.text, signature.value, expiryText, keyName.text))
              && rt.ops == old(rt.ops) + (if signature.Some? then Attempted(rt.faults, old(rt.ops), 11)
                                          else Attempted(rt.faults, old(rt.ops), 3))
              && rt.steps == old(rt.steps) + Chain(rt.faults, old(rt.ops), CompletionPlan(rt.lib, decodedKey.bytes, scope.text, keyName.text, expiryText))
    ensures result == null ==> rt.ops == old(rt.ops) && rt.steps == old(rt.steps)
    ensures rt.live == old(rt.live) - (HandleSet(result) - HandleSet(token)) - HandleSet(toBeHashed) - HandleSet(hash)
    ensures old(rt.acquired) <= rt.acquired
    ensures rt.freed == old(rt.freed) + (rt.acquired - old(rt.acquired)) + (HandleSet(result) - HandleSet(token))
                        + HandleSet(toBeHashed) + HandleSet(hash)
  {
    token := null;
    if result != null {
      var ok := FillToken(rt, decodedKey, hash, toBeHashed, result, scope, keyName, expiryText);
      if ok {
        token := result;
      } else {
        rt.StringDelete(result);
      }
    }
    rt.StringDelete(toBeHashed);
    rt.BufferDelete(hash);
  }

  /**
   * Fills the allocated workspace: the signed text, then the signature and
   * the token. It succeeds exactly when every append and every collaborator
   * succeeds, and the result STRING then holds the token.
   */
  method FillToken(rt: Heap, decodedKey: BufferHandle, hash: BufferHandle, toBeHashed: StringHandle,
                   result: StringHandle, scope: StringHandle, keyName: StringHandle, expiryText: string)
    returns (ok: bool)
    requires rt.Valid()
    requires decodedKey in rt.live && hash in rt.live && decodedKey != hash
    requires toBeHashed in rt.live && result in rt.live && scope in rt.live && keyName in rt.live
    requires toBeHashed.text == "" && toBeHashed != scope && toBeHashed != keyName
    requires result != scope && result != keyName && result != toBeHashed
    modifies rt`ops, rt`steps, rt`live, rt`acquired, rt`freed, rt`calls, hash, toBeHashed, result
    ensures rt.Valid()
    ensures rt.calls == old(rt.calls) +
              if NoFault(rt.faults, old(rt.ops), 3) then SigningCalls(rt.lib, decodedKey.bytes, ToBeSigned(scope.text, expiryText)) else []
    ensures var signature := Signature(rt.lib, decodedKey.bytes, ToBeSigned(scope.text, expiryText));
            && (ok <==> NoFault(rt.faults, old(rt.ops), 3) && signature.Some? && NoFault(rt.faults, old(rt.ops) + 3, 8))
            && (ok ==> result.text == TokenText(scope.text, signature.value, expiryText, keyName.text))
            && rt.ops == old(rt.ops) + if signature.Some? then Attempted(rt.faults, old(rt.ops), 11)
                                       else Attempted(rt.faults, old(rt.ops), 3)
    ensures rt.steps == old(rt.steps) + Chain(rt.faults, old(rt.ops), CompletionPlan(rt.lib, decodedKey.bytes, scope.text, keyName.text, expiryText))
    ensures rt.live == old(rt.live) && old(rt.acquired) <= rt.acquired
    ensures rt.freed == old(rt.freed) + (rt.acquired - old(rt.acquired))
  {
    AttemptedSplit(rt.faults, rt.ops, 3, 8);
    CompletionChain(rt.lib, decodedKey.bytes, scope.text, keyName.text, expiryText, rt.faults, rt.ops);
    ghost var from, steps0 := rt.ops, rt.steps;
    ghost var signature := Signature(rt.lib, decodedKey.bytes, ToBeSigned(scope.text, expiryText));
    ghost var rest := if NoFault(rt.faults, from, 3) && signature.Some?
                      then Chain(rt.faults, from + 3, AssemblyPlan(scope.text, signature.value, expiryText, keyName.text))
                      else [];
    ok := AppendToBeSigned(rt, toBeHashed, scope, expiryText);
    ghost var steps1 := rt.steps;
    if ok {
      assert rt.ops == from + 3 && toBeHashed.text == ToBeSigned(scope.text, expiryText);
      ok := SignAndAssemble(rt, decodedKey, hash, toBeHashed, result, scope, keyName, expiryText);
      assert rt.steps == steps1 + rest;
    } else {
      assert rest == [];
    }
    Associative(steps0, Chain(rt.faults, from, SignedTextPlan(scope.text, expiryText)), rest);
  }

  /** Builds the signed text in the empty STRING `toBeHashed`: scope, "\n", expiry text, in that order. */
  method AppendToBeSigned(rt: Heap, toBeHashed: StringHandle, scope: StringHandle, expiryText: string)
    returns (ok: bool)
    requires toBeHashed in rt.live && scope in rt.live && toBeHashed != scope
    requires toBeHashed.text == ""
    modifies rt`ops, rt`steps, toBeHashed
    ensures ok <==> NoFault(rt.faults, old(rt.ops), 3)
    ensures rt.ops == old(rt.ops) + Attempted(rt.faults, old(rt.ops), 3)
    ensures rt.steps == old(rt.steps) + Chain(rt.faults, old(rt.ops), SignedTextPlan(scope.text, expiryText))
    ensures ok ==> toBeHashed.text == ToBeSigned(scope.text, expiryText)
  {
    ghost var from := rt.ops;
    NoFaultExtend(rt.faults, from, 0);
    NoFaultExtend(rt.faults, from, 1);
    NoFaultExtend(rt.faults, from, 2);
    ok := rt.StringConcatWithString(toBeHashed, scope);
    if ok {
      ok := rt.StringConcat(toBeHashed, "\n");
      if ok {
        ok := rt.StringConcat(toBeHashed, expiryText);
      }
    }
  }

  /**
   * Signs the text of `toBeHashed` with the decoded key into `hash`, encodes
   * the signature and assembles the token in `result`. The Base64 and the
   * URL-encoded signatures are released whether or not this succeeds.
   */
  method SignAndAssemble(rt: Heap, decodedKey: BufferHandle, hash: BufferHandle, toBeHashed: StringHandle,
                         result: StringHandle, scope: StringHandle, keyName: StringHandle, expiryText: string)
    returns (ok: bool)
    requires rt.Valid()
    requires decodedKey in rt.live && hash in rt.live && decodedKey != hash
    requires toBeHashed in rt.live && result in rt.live && scope in rt.live && keyName in rt.live
    requires result != scope && result != keyName
    modifies rt`ops, rt`steps, rt`live, rt`acquired, rt`freed, rt`calls, hash, result
    ensures rt.Valid()
    ensures rt.calls == old(rt.calls) + SigningCalls(rt.lib, decodedKey.bytes, old(toBeHashed.text))
    ensures var signature := Signature(rt.lib, decodedKey.bytes, old(toBeHashed.text));
            && (ok <==> signature.Some? && NoFault(rt.faults, old(rt.ops), 8))
            && (ok ==> result.text == TokenText(scope.text, signature.value, expiryText, keyName.text))
            && rt.ops == old(rt.ops) + (if signature.Some? then Attempted(rt.faults, old(rt.ops), 8) else 0)
            && rt.steps == old(rt.steps) +
                 if signature.Some? then Chain(rt.faults, old(rt.ops), AssemblyPlan(scope.text, signature.value, expiryText, keyName.text))
                 else []
    ensures rt.live == old(rt.live) && old(rt.acquired) <= rt.acquired
    ensures rt.freed == old(rt.freed) + (rt.acquired - old(rt.acquired))
  {
    var base64Signature, urlEncodedSignature := Sign(rt, decodedKey, hash, toBeHashed);
    ok := urlEncodedSignature != null;
    if ok {
      ok := AssembleToken(rt, result, scope, urlEncodedSignature, expiryText, keyName);
    }
    rt.StringDelete(base64Signature);
    rt.StringDelete(urlEncodedSignature);
  }

  /**
   * The signing chain: HMAC-SHA256 of the signed text under the decoded key
   * into `hash`, then Base64_Encode of the hash, then URL_Encode of that,
   * stopping at the first failure. Both encoded STRINGs are returned, NULL
   * where they were not produced, so the caller can release them.
   */
  method Sign(rt: Heap, decodedKey: BufferHandle, hash: BufferHandle, toBeHashed: StringHandle)
    returns (base64Signature: StringHandle?, urlEncodedSignature: StringHandle?)
    requires rt.Valid()
    requires decodedKey in rt.live && hash in rt.live && toBeHashed in rt.live && decodedKey != hash
    modifies rt`live, rt`acquired, rt`calls, hash
    ensures rt.Valid()
    ensures rt.calls == old(rt.calls) + SigningCalls(rt.lib, decodedKey.bytes, toBeHashed.text)
    ensures var signature := Signature(rt.lib, decodedKey.bytes, toBeHashed.text);
            && (urlEncodedSignature != null <==> signature.Some?)
            && (urlEncodedSignature != null ==> urlEncodedSignature.text == signature.value)
    ensures rt.live == old(rt.live) + (HandleSet(base64Signature) + HandleSet(urlEncodedSignature))
    ensures rt.acquired == old(rt.acquired) + (HandleSet(base64Signature) + HandleSet(urlEncodedSignature))
    ensures HandleSet(base64Signature) + HandleSet(urlEncodedSignature) !! old(rt.live) + old(rt.acquired)
    ensures HandleSet(base64Signature) !! HandleSet(urlEncodedSignature)
  {
    base64Signature, urlEncodedSignature := null, null;
    var ok := rt.HmacSha256ComputeHash(decodedKey.bytes, toBeHashed.text, hash);
    if ok {
      base64Signature := rt.Base64Encode(hash);
      if base64Signature != null {
        urlEncodedSignature := rt.UrlEncode(base64Signature);
      }
    }
  }

  /**
   * Writes the token into `result`: the prefix and the signature field,
   * then the expiry and key name fields, eight steps that stop at the
   * first failure.
   */
  method AssembleToken(rt: Heap, result: StringHandle, scope: StringHandle, signature: StringHandle,
                       expiryText: string, keyName: StringHandle) returns (ok: bool)
    requires result in rt.live && scope in rt.live && signature in rt.live && keyName in rt.live
    requires result != scope && result != signature && result != keyName
    modifies rt`ops, rt`steps, result
    ensures ok <==> NoFault(rt.faults, old(rt.ops), 8)
    ensures rt.ops == old(rt.ops) + Attempted(rt.faults, old(rt.ops), 8)
    ensures rt.steps == old(rt.steps) + Chain(rt.faults, old(rt.ops), AssemblyPlan(scope.text, signature.text, expiryText, keyName.text))
    ensures ok ==> result.text == TokenText(scope.text, signature.text, expiryText, keyName.text)
  {
    NoFaultSplit(rt.faults, rt.ops, 4, 4);
    AttemptedSplit(rt.faults, rt.ops, 4, 4);
    ChainSplit(rt.faults, rt.ops, HeadPlan(scope.text, signature.text), TailPlan(expiryText, keyName.text));
    ok := AssembleHead(rt, result, scope, signature);
    if ok {
      ok := AssembleTail(rt, result, expiryText, keyName);
    }
  }

  /**
   * The first four steps of the token: a copy of the prefix, then appends
   * of the scope, "&sig=" and the signature.
   */
  method AssembleHead(rt: Heap, result: StringHandle, scope: StringHandle, signature: StringHandle)
    returns (ok: bool)
    requires result in rt.live && scope in rt.live && signature in rt.live
    requires result != scope && result != signature
    modifies rt`ops, rt`steps, result
    ensures ok <==> NoFault(rt.faults, old(rt.ops), 4)
    ensures rt.ops == old(rt.ops) + Attempted(rt.faults, old(rt.ops), 4)
    ensures rt.steps == old(rt.steps) + Chain(rt.faults, old(rt.ops), HeadPlan(scope.text, signature.text))
    ensures ok ==> result.text == Prefix + scope.text + SignatureLabel + signature.text
  {
    ghost var from := rt.ops;
    NoFaultExtend(rt.faults, from, 0);
    NoFaultExtend(rt.faults, from, 1);
    NoFaultExtend(rt.faults, from, 2);
    NoFaultExtend(rt.faults, from, 3);
    ok := rt.StringCopy(result, Prefix);
    if ok {
      ok := rt.StringConcatWithString(result, scope);
      if ok {
        ok := rt.StringConcat(result, SignatureLabel);
        if ok {
          ok := rt.StringConcatWithString(result, signature);
        }
      }
    }
  }

  /**
   * The last four steps of the token: appends of "&se=", the expiry text,
   * "&skn=" and the key name.
   */
  method AssembleTail(rt: Heap, result: StringHandle, expiryText: string, keyName: StringHandle)
    returns (ok: bool)
    requires result in rt.live && keyName in rt.live && result != keyName
    modifies rt`ops, rt`steps, result
    ensures ok <==> NoFault(rt.faults, old(rt.ops), 4)
    ensures rt.ops == old(rt.ops) + Attempted(rt.faults, old(rt.ops), 4)
    ensures rt.steps == old(rt.steps) + Chain(rt.faults, old(rt.ops), TailPlan(expiryText, keyName.text))
    ensures ok ==> result.text == old(result.text) + ExpiryLabel + expiryText + KeyNameLabel + keyName.text
  {
    ghost var from := rt.ops;
    NoFaultExtend(rt.faults, from, 0);
    NoFaultExtend(rt.faults, from, 1);
    NoFaultExtend(rt.faults, from, 2);
    NoFaultExtend(rt.faults, from, 3);
    ok := rt.StringConcat(result, ExpiryLabel);
    if ok {
      ok := rt.StringConcat(result, expiryText);
      if ok {
        ok := rt.StringConcat(result, KeyNameLabel);
        if ok {
          ok := rt.StringConcatWithString(result, keyName);
        }
      }
    }
  }
}
