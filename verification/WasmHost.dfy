/** The host side in place: the views over the instance's memory and the operations that write through them. */
module WasmHost {
  import opened Wrappers
  import opened Numbers
  import opened Bytes
  import opened WasmHeap
  import opened WasmRuns

  class Instance {
    var buffer: array<byte>    // memory.buffer; growing the memory replaces it
    var heapPtr: int           // the exported __heap_ptr
    ghost var blocks: seq<Block>

    ghost function Model(): World
      reads this, buffer
    {
      World(Heap(buffer[..], heapPtr), blocks)
    }

    constructor (memory: seq<byte>, heapBase: int)
      ensures Model() == World(Heap(memory, heapBase), []) && fresh(buffer)
      ensures 0 <= heapBase ==> Inv(Model())
    {
      buffer := new byte[|memory|](i requires 0 <= i < |memory| => memory[i]);
      heapPtr := heapBase;
      blocks := [];
    }

    /** The module's allocator runs: it may grow the memory, which detaches the previous buffer. */
    method Malloc(reply: Reply) returns (ptr: nat)
      modifies this`buffer, this`heapPtr
      ensures ptr == reply.ptr && Model() == AfterMalloc(old(Model()), reply) && fresh(buffer)
    {
      buffer := new byte[|reply.mem|](i requires 0 <= i < |reply.mem| => reply.mem[i]);
      heapPtr := reply.hp;
      ptr := reply.ptr;
    }

    /** The defensive bump; the block below it now counts as handed out. */
    method BumpHeapPtr(ptr: nat, totalSize: nat, ghost written: bool)
      modifies this`heapPtr, this`blocks
      ensures Model() == HandOut(old(Model()), ptr, totalSize, written)
    {
      var expected := AlignDown8(ToInt32(ptr + totalSize + 7));
      if heapPtr < expected {
        heapPtr := expected;
      }
      blocks := HandOut(Model(), ptr, totalSize, written).blocks;
    }

    /** DataView.setUint32, little-endian; false when it throws. */
    method SetUint32(at: nat, v: nat) returns (ok: bool)
      modifies buffer
      ensures ok <==> at + 4 <= buffer.Length
      ensures buffer[..] == if ok then Overwrite(old(buffer[..]), at, LE32(v)) else old(buffer[..])
    {
      ok := at + 4 <= buffer.Length;
      if ok {
        var w := LE32(v);
        buffer[at], buffer[at + 1], buffer[at + 2], buffer[at + 3] := w[0], w[1], w[2], w[3];
      }
    }

    /** Uint8Array.set at an offset where the bytes fit. */
    method SetBytes(at: nat, data: seq<byte>)
      requires at + |data| <= buffer.Length
      modifies buffer
      ensures buffer[..] == Overwrite(old(buffer[..]), at, data)
    {
      forall i | 0 <= i < |data| {
        buffer[at + i] := data[i];
      }
    }

    /** Uint8Array.copyWithin. */
    method CopyRange(target: nat, start: nat, end: nat)
      requires start <= end
      modifies buffer
      ensures buffer[..] == CopyWithin(old(buffer[..]), target, start, end)
    {
      var from, final := Min(start, buffer.Length), Min(end, buffer.Length);
      forall i | target <= i < target + (final - from) && i < buffer.Length {
        buffer[i] := buffer[from + (i - target)];
      }
    }

    method ReadLengthPrefixedBytes(ptr: int) returns (r: Result<seq<byte>, Error>)
      ensures r == ReadBytes(buffer[..], ptr)
    {
      if ptr == 0 {
        return Ok([]);
      }
      if ptr < 0 || ptr + 4 > buffer.Length {
        return Err(RangeError);
      }
      var len := U32At(buffer[..], ptr);
      if len == 0 {
        return Ok([]);
      }
      if ptr + 4 + len > buffer.Length {
        return Err(InvalidLength);
      }
      return Ok(buffer[..][ptr + 4..ptr + 4 + len]);
    }

    method WriteLengthPrefixedBytes(data: seq<byte>, reply: Reply) returns (r: Result<nat, Error>)
      modifies this, buffer
      ensures Outcome(Model(), r) == WriteBytes(old(Model()), data, reply)
      ensures fresh(buffer) || buffer == old(buffer)
    {
      hide Overwrite, LE32, Bump;
      var totalSize := 4 + |data|;
      var ptr := Malloc(reply);
      if ptr == 0 {
        return Err(NullPointer);
      }
      if ptr + totalSize > buffer.Length {
        return Err(OutOfBounds);
      }
      var _ := SetUint32(ptr, |data|);
      SetBytes(ptr + 4, data);
      BumpHeapPtr(ptr, totalSize, true);
      return Ok(ptr);
    }

    method GetPrefix(ptr: int) returns (r: Result<nat, Error>)
      ensures r == PrefixAt(buffer[..], ptr)
    {
      if ptr == 0 {
        return Ok(0);
      }
      if ptr < 0 || ptr + 4 > buffer.Length {
        return Err(RangeError);
      }
      return Ok(U32At(buffer[..], ptr));
    }

    /** The header, then both inputs; false when the header itself is out of range. */
    method FillJoined(ptr: nat, lpA: nat, lenA: nat, lpB: nat, lenB: nat) returns (ok: bool)
      modifies buffer
      ensures ok <==> ptr + 4 <= buffer.Length
      ensures buffer[..] == if ok then JoinInto(old(buffer[..]), ptr, lpA, lenA, lpB, lenB) else old(buffer[..])
    {
      hide Overwrite, CopyWithin, LE32;
      ok := SetUint32(ptr, lenA + lenB);
      if !ok {
        return;
      }
      if lenA > 0 {
        CopyRange(ptr + 4, lpA + 4, lpA + 4 + lenA);
      }
      if lenB > 0 {
        CopyRange(ptr + 4 + lenA, lpB + 4, lpB + 4 + lenB);
      }
    }

    method ConcatLengthPrefixed(lpA: int, lpB: int, reply: Reply) returns (r: Result<nat, Error>)
      modifies this, buffer
      ensures Outcome(Model(), r) == Concat(old(Model()), lpA, lpB, reply)
      ensures fresh(buffer) || buffer == old(buffer)
    {
      hide JoinInto, Bump, U32At;
      var a := GetPrefix(lpA);
      if a.Err? {
        return Err(a.error);
      }
      var b := GetPrefix(lpB);
      if b.Err? {
        return Err(b.error);
      }
      var lenA, lenB := a.value, b.value;
      if lenA == 0 && lenB == 0 {
        return Ok(0);
      }
      var totalLen := lenA + lenB;
      var ptr := Malloc(reply);
      if ptr == 0 {
        return Err(NullPointer);
      }
      var ok := FillJoined(ptr, lpA, lenA, lpB, lenB);
      if !ok {
        return Err(RangeError);
      }
      BumpHeapPtr(ptr, 4 + totalLen, true);
      return Ok(ptr);
    }

    /** setUint32 for each word in turn, until one throws. */
    method StoreEach(at: nat, words: seq<nat>) returns (ok: bool)
      modifies buffer
      ensures Stored(buffer[..], ok) == StoreWords(old(buffer[..]), at, words)
    {
      var i := 0;
      ok := true;
      while i < |words|
        invariant i <= |words| && ok
        invariant StoreWords(buffer[..], at + 4 * i, words[i..]) == StoreWords(old(buffer[..]), at, words)
      {
        ok := SetUint32(at + 4 * i, words[i]);
        if !ok {
          return;
        }
        assert words[i..][1..] == words[i + 1..];
        i := i + 1;
      }
    }

    method AllocAndStore(words: seq<nat>, reply: Reply) returns (r: Result<nat, Error>)
      modifies this, buffer
      ensures Outcome(Model(), r) == StoreBlock(old(Model()), words, reply)
      ensures fresh(buffer) || buffer == old(buffer)
    {
      var ptr := Malloc(reply);
      if ptr == 0 {
        return Err(NullPointer);
      }
      var ok := StoreEach(ptr, words);
      if !ok {
        return Err(RangeError);
      }
      BumpHeapPtr(ptr, 4 * |words|, true);
      return Ok(ptr);
    }

    method BoxStringAsAny(data: seq<byte>, reply: Reply, reply2: Reply) returns (r: Result<nat, Error>)
      modifies this, buffer
      ensures Outcome(Model(), r) == BoxString(old(Model()), data, reply, reply2)
      ensures fresh(buffer) || buffer == old(buffer)
    {
      r := WriteLengthPrefixedBytes(data, reply);
      if r.Ok? {
        r := AllocAndStore([ANY_TAG_STRING, r.value, 0], reply2);
      }
    }

    method ReadAnyAsString(anyPtr: int) returns (r: Result<seq<byte>, Error>)
      ensures r == ReadAny(buffer[..], anyPtr)
    {
      if anyPtr == 0 {
        return Ok([]);
      }
      if anyPtr < 0 || anyPtr + 4 > buffer.Length {
        return Err(RangeError);
      }
      if U32At(buffer[..], anyPtr) == ANY_TAG_NULL {
        return Ok([]);
      }
      if anyPtr + 8 > buffer.Length {
        return Err(RangeError);
      }
      r := ReadLengthPrefixedBytes(U32At(buffer[..], anyPtr + 4));
    }

    method WriteEach(parts: seq<seq<byte>>, replies: seq<Reply>) returns (r: Result<seq<nat>, Error>)
      requires |replies| == |parts|
      modifies this, buffer
      ensures Outcome(Model(), r) == WriteAll(old(Model()), parts, replies)
      ensures fresh(buffer) || buffer == old(buffer)
      decreases |parts|
    {
      if parts == [] {
        return Ok([]);
      }
      var first := WriteLengthPrefixedBytes(parts[0], replies[0]);
      if first.Err? {
        return Err(first.error);
      }
      var rest := WriteEach(parts[1..], replies[1..]);
      if rest.Err? {
        return rest;
      }
      return Ok([first.value] + rest.value);
    }

    method StringSplit(c: Codec, lpStr: int, lpDelim: int, replies: seq<Reply>, reply: Reply) returns (r: Result<nat, Error>)
      requires SplitParts(Model(), c, lpStr, lpDelim).Ok? ==> |replies| == |SplitParts(Model(), c, lpStr, lpDelim).value|
      modifies this, buffer
      ensures Outcome(Model(), r) == SplitString(old(Model()), c, lpStr, lpDelim, replies, reply)
      ensures fresh(buffer) || buffer == old(buffer)
    {
      var str := ReadLengthPrefixedBytes(lpStr);
      if str.Err? {
        return Err(str.error);
      }
      var delim := ReadLengthPrefixedBytes(lpDelim);
      if delim.Err? {
        return Err(delim.error);
      }
      var parts := EncodedParts(c, str.value, delim.value);
      var ptrs := WriteEach(parts, replies);
      if ptrs.Err? {
        return Err(ptrs.error);
      }
      r := AllocAndStore(ListWords(ptrs.value), reply);
    }

    /** mem_alloc: sizes that are not positive, and a malloc that fails, give 0. */
    method AllocBlock(size: int, reply: Reply) returns (r: nat)
      modifies this, buffer
      ensures Outcome(Model(), Ok(r)) == MemAlloc(old(Model()), size, reply)
      ensures fresh(buffer) || buffer == old(buffer)
    {
      if size <= 0 {
        return 0;
      }
      var ptr := Malloc(reply);
      if ptr == 0 {
        return 0;
      }
      BumpHeapPtr(ptr, size, false);
      return ptr;
    }

    /** memory.grow: the old buffer is detached and its bytes are copied. */
    method Grow(extra: nat)
      modifies this`buffer
      ensures Model() == WithMem(old(Model()), old(buffer[..]) + seq(extra, _ => 0)) && fresh(buffer)
    {
      var grown := buffer[..] + seq(extra, _ => 0);
      buffer := new byte[|grown|](i requires 0 <= i < |grown| => grown[i]);
      assert buffer[..] == grown;
    }

    method Perform(e: Event)
      requires Possible(Model(), e)
      modifies this, buffer
      ensures Model() == Step(old(Model()), e)
      ensures e.Scope? && e.popOk ==> heapPtr == old(heapPtr) && blocks == old(blocks)
      ensures fresh(buffer) || buffer == old(buffer)
      decreases e, 0
    {
      match e
      case Write(data, r) => var _ := WriteLengthPrefixedBytes(data, r);
      case Join(a, b, r) => var _ := ConcatLengthPrefixed(a, b, r);
      case Box(data, r, r2) => var _ := BoxStringAsAny(data, r, r2);
      case Split(c, str, delim, rs, r) => var _ := StringSplit(c, str, delim, rs, r);
      case Alloc(size, r) => var _ := AllocBlock(size, r);
      case WasmAlloc(size, r) =>
        var ptr := Malloc(r);
        if ptr != 0 {
          blocks := blocks + [Block(ptr, size, None)];
        }
      case WasmStore(_, at, v) =>
        buffer[at] := v;
      case GrowMemory(extra) => Grow(extra);
      case Scope(body, popOk) =>
        ghost var entry := Model();
        var snapshot := heapPtr;
        PerformAll(body);
        if popOk {
          heapPtr := snapshot;
          blocks := entry.blocks;
        }
    }

    method PerformAll(es: seq<Event>)
      requires PossibleRun(Model(), es)
      modifies this, buffer
      ensures Model() == Run(old(Model()), es)
      ensures fresh(buffer) || buffer == old(buffer)
      decreases es, 1
    {
      if es != [] {
        Perform(es[0]);
        PerformAll(es[1..]);
      }
    }
  }
}
