/**
 * The handle-based world SASToken_Create works in: STRING and BUFFER handles
 * that are allocated, grown in place and deleted, the collaborators it calls
 * (Base64, URL encoding, HMAC-SHA256, size_tToString) and a fault-injection
 * oracle that decides which allocations and appends fail.
 */
module Handles {
  import opened Wrappers

  type Byte = bv8
  type Bytes = seq<Byte>

  /** A STRING_HANDLE: a growable character string, changed in place. NULL is `null`. */
  class StringHandle {
    var text: string

    constructor (text: string)
      ensures this.text == text
    {
      this.text := text;
    }
  }

  /** A BUFFER_HANDLE: a byte buffer, filled in place. NULL is `null`. */
  class BufferHandle {
    var bytes: Bytes

    constructor (bytes: Bytes)
      ensures this.bytes == bytes
    {
      this.bytes := bytes;
    }
  }

  /**
   * The collaborators whose code is not part of this model. Each may fail,
   * which the C code sees as a NULL handle or a non-OK result.
   */
  datatype Library = Library(
    base64Decode: string -> Option<Bytes>,
    base64Encode: Bytes -> Option<string>,
    urlEncode: string -> Option<string>,
    hmacSha256: (Bytes, string) -> Option<Bytes>,
    sizeToString: (nat, nat) -> Option<string>)

  /** A call into one of the collaborators, with the arguments it was given. */
  datatype Call =
    | Base64DecoderCall(text: string)
    | SizeToStringCall(value: nat, capacity: nat)
    | HmacSha256Call(key: Bytes, payload: string)
    | Base64EncodeCall(hash: Bytes)
    | UrlEncodeCall(signature: string)

  /**
   * A fallible heap step, with the text it passes: BUFFER_new, STRING_new,
   * STRING_copy, STRING_concat, and STRING_concat_with_STRING with the text
   * of the STRING appended.
   */
  datatype Step =
    | BufferNewStep
    | StringNewStep
    | CopyStep(text: string)
    | ConcatStep(text: string)
    | ConcatWithStringStep(text: string)

  /** The set holding `h`, or the empty set when `h` is NULL. */
  function HandleSet(h: object?): set<object>
  {
    if h == null then {} else {h}
  }

  /**
   * The STRING and BUFFER allocator together with the collaborators.
   * `live` holds the handles that may be used and must eventually be
   * deleted; `acquired` every handle this heap has handed out; `freed`
   * every handle deleted. The `ops`-th fallible allocation or append fails
   * exactly when `ops` is in `faults`. `calls` logs every collaborator call
   * and `steps` every fallible allocation and append, failed ones included.
   */
  class Heap {
    const lib: Library
    const faults: set<nat>
    var ops: nat
    ghost var live: set<object>
    ghost var acquired: set<object>
    ghost var freed: set<object>
    ghost var calls: seq<Call>
    ghost var steps: seq<Step>

    /** A deleted handle is never live again. */
    ghost predicate Valid()
      reads this
    {
      live !! freed
    }

    constructor (lib: Library, faults: set<nat>)
      ensures Valid()
      ensures this.lib == lib && this.faults == faults && ops == 0
      ensures live == {} && acquired == {} && freed == {} && calls == [] && steps == []
    {
      this.lib := lib;
      this.faults := faults;
      ops := 0;
      live := {};
      acquired := {};
      freed := {};
      calls := [];
      steps := [];
    }

    /** Logs the next fallible allocation or append and consults the fault oracle for it. */
    method Attempt(step: Step) returns (ok: bool)
      modifies this`ops, this`steps
      ensures ops == old(ops) + 1 && steps == old(steps) + [step]
      ensures ok <==> old(ops) !in faults
    {
      ok := ops !in faults;
      ops := ops + 1;
      steps := steps + [step];
    }

    /** Records a freshly allocated handle as live. */
    method Acquire(h: object)
      requires Valid() && h !in freed
      modifies this`live, this`acquired
      ensures Valid()
      ensures live == old(live) + {h} && acquired == old(acquired) + {h}
    {
      live := live + {h};
      acquired := acquired + {h};
    }

    /** STRING_new: a fresh, empty STRING, or NULL when the allocation fails. */
    method StringNew() returns (s: StringHandle?)
      requires Valid()
      modifies this`ops, this`steps, this`live, this`acquired
      ensures Valid()
      ensures ops == old(ops) + 1
      ensures s == null <==> old(ops) in faults
      ensures s != null ==> fresh(s) && s.text == ""
      ensures steps == old(steps) + [StringNewStep]
      ensures live == old(live) + HandleSet(s) && acquired == old(acquired) + HandleSet(s)
    {
      var ok := Attempt(StringNewStep);
      if ok {
        s := new StringHandle("");
        Acquire(s);
      } else {
        s := null;
      }
    }

    /** BUFFER_new: a fresh, empty BUFFER, or NULL when the allocation fails. */
    method BufferNew() returns (b: BufferHandle?)
      requires Valid()
      modifies this`ops, this`steps, this`live, this`acquired
      ensures Valid()
      ensures ops == old(ops) + 1
      ensures b == null <==> old(ops) in faults
      ensures b != null ==> fresh(b) && b.bytes == []
      ensures steps == old(steps) + [BufferNewStep]
      ensures live == old(live) + HandleSet(b) && acquired == old(acquired) + HandleSet(b)
    {
      var ok := Attempt(BufferNewStep);
      if ok {
        b := new BufferHandle([]);
        Acquire(b);
      } else {
        b := null;
      }
    }

    /** STRING_concat: appends `x` to `s` in place; a failed append leaves `s` as it was. */
    method StringConcat(s: StringHandle, x: string) returns (ok: bool)
      requires s in live
      modifies this`ops, this`steps, s
      ensures ops == old(ops) + 1
      ensures ok <==> old(ops) !in faults
      ensures s.text == if ok then old(s.text) + x else old(s.text)
      ensures steps == old(steps) + [ConcatStep(x)]
    {
      ok := Attempt(ConcatStep(x));
      if ok {
        s.text := s.text + x;
      }
    }

    /** STRING_concat_with_STRING: appends the text of `src` to `s` in place. */
    method StringConcatWithString(s: StringHandle, src: StringHandle) returns (ok: bool)
      requires s in live && src in live
      modifies this`ops, this`steps, s
      ensures ops == old(ops) + 1
      ensures ok <==> old(ops) !in faults
      ensures s.text == if ok then old(s.text) + old(src.text) else old(s.text)
      ensures steps == old(steps) + [ConcatWithStringStep(old(src.text))]
    {
      var x := src.text;
      ok := Attempt(ConcatWithStringStep(x));
      if ok {
        s.text := s.text + x;
      }
    }

    /** STRING_copy: replaces the text of `s` with `x`. */
    method StringCopy(s: StringHandle, x: string) returns (ok: bool)
      requires s in live
      modifies this`ops, this`steps, s
      ensures ops == old(ops) + 1
      ensures ok <==> old(ops) !in faults
      ensures s.text == if ok then x else old(s.text)
      ensures steps == old(steps) + [CopyStep(x)]
    {
      ok := Attempt(CopyStep(x));
      if ok {
        s.text := x;
      }
    }

    /**
     * STRING_delete: releases a live STRING; NULL is accepted and ignored.
     * Requiring the handle to be live rules out a double release.
     */
    method StringDelete(s: StringHandle?)
      requires Valid() && (s == null || s in live)
      modifies this`live, this`freed
      ensures Valid()
      ensures live == old(live) - HandleSet(s) && freed == old(freed) + HandleSet(s)
    {
      if s != null {
        live := live - {s};
        freed := freed + {s};
      }
    }

    /** BUFFER_delete: releases a live BUFFER; NULL is accepted and ignored. */
    method BufferDelete(b: BufferHandle?)
      requires Valid() && (b == null || b in live)
      modifies this`live, this`freed
      ensures Valid()
      ensures live == old(live) - HandleSet(b) && freed == old(freed) + HandleSet(b)
    {
      if b != null {
        live := live - {b};
        freed := freed + {b};
      }
    }

    /** Base64_Decoder: a fresh BUFFER holding the decoded bytes of `text`, or NULL. */
    method Base64Decoder(text: string) returns (b: BufferHandle?)
      requires Valid()
      modifies this`live, this`acquired, this`calls
      ensures Valid()
      ensures calls == old(calls) + [Base64DecoderCall(text)]
      ensures b == null <==> lib.base64Decode(text).None?
      ensures b != null ==> fresh(b) && b.bytes == lib.base64Decode(text).value
      ensures live == old(live) + HandleSet(b) && acquired == old(acquired) + HandleSet(b)
    {
      calls := calls + [Base64DecoderCall(text)];
      match lib.base64Decode(text)
      case None =>
        b := null;
      case Some(bytes) =>
        b := new BufferHandle(bytes);
        Acquire(b);
    }

    /** Base64_Encode: a fresh STRING holding the Base64 text of the bytes of `src`, or NULL. */
    method Base64Encode(src: BufferHandle) returns (s: StringHandle?)
      requires Valid() && src in live
      modifies this`live, this`acquired, this`calls
      ensures Valid()
      ensures calls == old(calls) + [Base64EncodeCall(src.bytes)]
      ensures s == null <==> lib.base64Encode(src.bytes).None?
      ensures s != null ==> fresh(s) && s.text == lib.base64Encode(src.bytes).value
      ensures live == old(live) + HandleSet(s) && acquired == old(acquired) + HandleSet(s)
    {
      calls := calls + [Base64EncodeCall(src.bytes)];
      match lib.base64Encode(src.bytes)
      case None =>
        s := null;
      case Some(text) =>
        s := new StringHandle(text);
        Acquire(s);
    }

    /** URL_Encode: a fresh STRING holding the percent-encoded text of `src`, or NULL. */
    method UrlEncode(src: StringHandle) returns (s: StringHandle?)
      requires Valid() && src in live
      modifies this`live, this`acquired, this`calls
      ensures Valid()
      ensures calls == old(calls) + [UrlEncodeCall(src.text)]
      ensures s == null <==> lib.urlEncode(src.text).None?
      ensures s != null ==> fresh(s) && s.text == lib.urlEncode(src.text).value
      ensures live == old(live) + HandleSet(s) && acquired == old(acquired) + HandleSet(s)
    {
      calls := calls + [UrlEncodeCall(src.text)];
      match lib.urlEncode(src.text)
      case None =>
        s := null;
      case Some(text) =>
        s := new StringHandle(text);
        Acquire(s);
    }

    /**
     * HMACSHA256_ComputeHash: the MAC of `payload` under `key`, written into
     * the BUFFER `hash`; on an error the buffer is left as it was.
     */
    method HmacSha256ComputeHash(key: Bytes, payload: string, hash: BufferHandle) returns (ok: bool)
      requires hash in live
      modifies this`calls, hash
      ensures calls == old(calls) + [HmacSha256Call(key, payload)]
      ensures ok <==> lib.hmacSha256(key, payload).Some?
      ensures hash.bytes == if ok then lib.hmacSha256(key, payload).value else old(hash.bytes)
    {
      calls := calls + [HmacSha256Call(key, payload)];
      match lib.hmacSha256(key, payload)
      case None =>
        ok := false;
      case Some(digest) =>
        ok := true;
        hash.bytes := digest;
    }

    /**
     * size_tToString: the decimal text of `value`, formatted into a character
     * buffer of `capacity` bytes; None when the conversion fails.
     */
    method SizeToString(value: nat, capacity: nat) returns (text: Option<string>)
      modifies this`calls
      ensures calls == old(calls) + [SizeToStringCall(value, capacity)]
      ensures text == lib.sizeToString(value, capacity)
    {
      calls := calls + [SizeToStringCall(value, capacity)];
      text := lib.sizeToString(value, capacity);
    }
  }
}
