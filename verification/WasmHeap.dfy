/**
 Host-side writes into the linear memory of a WASM instance.

 The allocator is the module's own `malloc`. It is a reply from the
 environment: a pointer at or above `__heap_ptr`, or 0. It may grow the memory,
 may scribble at or above `__heap_ptr`, and need not advance `__heap_ptr`
 past what it handed out. The host's defensive bump has to make up for that.
*/
module WasmHeap {
  import opened Wrappers
  import opened Numbers
  import opened Bytes
  import Text

  datatype Error = NullPointer | OutOfBounds | RangeError | InvalidLength

  datatype Heap = Heap(mem: seq<byte>, hp: int)

  /** What one call of malloc answers and leaves behind. */
  datatype Reply = Reply(ptr: nat, mem: seq<byte>, hp: int)

  /** A range handed out; `contents` is what a host write left there, None when WASM code owns the bytes. */
  datatype Block = Block(ptr: nat, size: nat, contents: Option<seq<byte>>)

  datatype World = World(heap: Heap, blocks: seq<Block>)

  datatype Outcome<T> = Outcome(world: World, result: Result<T, Error>)

  // ---------------------------------------------------------------------
  // What is assumed of the allocator, and what every reachable world keeps
  // ---------------------------------------------------------------------

  ghost predicate Extends(h: Heap, h': Heap) {
    && h.hp <= h'.hp
    && |h.mem| <= |h'.mem|
    && var cut := Min(h.hp, |h.mem|);
       0 <= cut && h'.mem[..cut] == h.mem[..cut]
  }

  ghost predicate Honest(h: Heap, r: Reply) {
    && Extends(h, Heap(r.mem, r.hp))
    && (r.ptr == 0 || r.ptr >= h.hp)
  }

  /** The rounding in the bump is done on signed 32-bit integers. */
  predicate Fits(ptr: int, size: int) {
    ptr + size + 7 < TWO_TO_31
  }

  ghost predicate Live(h: Heap, b: Block) {
    && 0 < b.ptr && 0 < b.size && b.ptr + b.size <= h.hp
    && (b.contents.Some? ==> b.ptr + b.size <= |h.mem| && h.mem[b.ptr..b.ptr + b.size] == b.contents.value)
  }

  ghost predicate Apart(b: Block, c: Block) {
    b.ptr + b.size <= c.ptr || c.ptr + c.size <= b.ptr
  }

  ghost predicate Inv(w: World) {
    && 0 <= w.heap.hp
    && (forall i :: 0 <= i < |w.blocks| ==> Live(w.heap, w.blocks[i]))
    && (forall i, j :: 0 <= i < j < |w.blocks| ==> Apart(w.blocks[i], w.blocks[j]))
  }

  // ---------------------------------------------------------------------
  // The bump
  // ---------------------------------------------------------------------

  function BumpTarget(ptr: int, size: int): int {
    AlignDown8(ToInt32(ptr + size + 7))
  }

  function Bump(hp: int, ptr: int, size: int): int {
    if hp < BumpTarget(ptr, size) then BumpTarget(ptr, size) else hp
  }

  /**
   The bump covers a block of non-negative address exactly when the pointer
   already did or the sum fits signed 32 bits; it then leaves less than 8 bytes of slack.
  */
  lemma BumpCoversExactly(hp: int, ptr: int, size: int)
    requires 0 <= hp && 0 <= ptr && 0 <= size
    ensures Bump(hp, ptr, size) >= ptr + size <==> hp >= ptr + size || Fits(ptr, size)
    ensures Fits(ptr, size) ==> Bump(hp, ptr, size) == hp || Bump(hp, ptr, size) < ptr + size + 8
    ensures Fits(ptr, size) && Bump(hp, ptr, size) != hp ==> Bump(hp, ptr, size) % 8 == 0
    ensures Bump(hp, ptr, size) >= hp
  {
  }

  // ---------------------------------------------------------------------
  // Operations
  // ---------------------------------------------------------------------

  function AfterMalloc(w: World, r: Reply): World {
    World(Heap(r.mem, r.hp), w.blocks)
  }

  /** Bump past the block and record it as handed out. */
  function HandOut(w: World, ptr: nat, size: nat, written: bool): World {
    var m := w.heap.mem;
    var contents := if written && ptr + size <= |m| then Some(m[ptr..ptr + size]) else None;
    World(Heap(m, Bump(w.heap.hp, ptr, size)), w.blocks + [Block(ptr, size, contents)])
  }

  function WithMem(w: World, m: seq<byte>): World {
    w.(heap := w.heap.(mem := m))
  }

  function WriteBytes(w: World, data: seq<byte>, r: Reply): Outcome<nat> {
    var w1 := AfterMalloc(w, r);
    if r.ptr == 0 then Outcome(w1, Err(NullPointer))
    else if r.ptr + 4 + |data| > |r.mem| then Outcome(w1, Err(OutOfBounds))
    else
      var m := Overwrite(Overwrite(r.mem, r.ptr, LE32(|data|)), r.ptr + 4, data);
      Outcome(HandOut(WithMem(w1, m), r.ptr, 4 + |data|, true), Ok(r.ptr))
  }

  function ReadBytes(m: seq<byte>, ptr: int): Result<seq<byte>, Error> {
    if ptr == 0 then Ok([])
    else if ptr < 0 || ptr + 4 > |m| then Err(RangeError)
    else
      var len := U32At(m, ptr);
      if len == 0 then Ok([])
      else if ptr + 4 + len > |m| then Err(InvalidLength)
      else Ok(m[ptr + 4..ptr + 4 + len])
  }

  /** The length prefix as string concatenation reads it: the null pointer is empty. */
  function PrefixAt(m: seq<byte>, ptr: int): Result<nat, Error> {
    if ptr == 0 then Ok(0)
    else if ptr < 0 || ptr + 4 > |m| then Err(RangeError)
    else Ok(U32At(m, ptr))
  }

  /** Both prefixes, read before the allocation. */
  function Prefixes(m: seq<byte>, a: int, b: int): Result<(nat, nat), Error> {
    match (PrefixAt(m, a), PrefixAt(m, b))
    case (Err(e), _) => Err(e)
    case (Ok(_), Err(e)) => Err(e)
    case (Ok(lenA), Ok(lenB)) => Ok((lenA, lenB))
  }

  function JoinInto(m: seq<byte>, ptr: nat, a: int, lenA: nat, b: int, lenB: nat): (r: seq<byte>)
    requires ptr + 4 <= |m| && 0 <= a && 0 <= b
    ensures |r| == |m|
    ensures forall i {:trigger r[i]} :: 0 <= i < |m| && !(ptr <= i < ptr + 4 + lenA + lenB) ==> r[i] == m[i]
  {
    var m1 := Overwrite(m, ptr, LE32(lenA + lenB));
    var m2 := CopyNonEmpty(m1, ptr + 4, a + 4, lenA);
    CopyNonEmpty(m2, ptr + 4 + lenA, b + 4, lenB)
  }

  function Concat(w: World, a: int, b: int, r: Reply): Outcome<nat> {
    match Prefixes(w.heap.mem, a, b)
    case Err(e) => Outcome(w, Err(e))
    case Ok((lenA, lenB)) =>
      if lenA == 0 && lenB == 0 then Outcome(w, Ok(0))
      else
        var w1 := AfterMalloc(w, r);
        if r.ptr == 0 then Outcome(w1, Err(NullPointer))
        else if r.ptr + 4 > |r.mem| then Outcome(w1, Err(RangeError))
        else
          var m := JoinInto(r.mem, r.ptr, a, lenA, b, lenB);
          Outcome(HandOut(WithMem(w1, m), r.ptr, 4 + lenA + lenB, true), Ok(r.ptr))
  }

  const ANY_STRUCT_SIZE := 12
  const ANY_TAG_NULL := 0
  const ANY_TAG_STRING := 4

  /** Allocate `size` bytes and store the words at their start. */
  function StoreBlock(w: World, words: seq<nat>, r: Reply): Outcome<nat> {
    var w1 := AfterMalloc(w, r);
    if r.ptr == 0 then Outcome(w1, Err(NullPointer))
    else
      var s := StoreWords(r.mem, r.ptr, words);
      if s.ok then Outcome(HandOut(WithMem(w1, s.mem), r.ptr, 4 * |words|, true), Ok(r.ptr))
      else Outcome(WithMem(w1, s.mem), Err(RangeError))
  }

  function BoxString(w: World, data: seq<byte>, r1: Reply, r2: Reply): Outcome<nat> {
    var s := WriteBytes(w, data, r1);
    match s.result
    case Err(_) => s
    case Ok(lp) => StoreBlock(s.world, [ANY_TAG_STRING, lp, 0], r2)
  }

  function ReadAny(m: seq<byte>, ptr: int): Result<seq<byte>, Error> {
    if ptr == 0 then Ok([])
    else if ptr < 0 || ptr + 4 > |m| then Err(RangeError)
    else if U32At(m, ptr) == ANY_TAG_NULL then Ok([])
    else if ptr + 8 > |m| then Err(RangeError)
    else ReadBytes(m, U32At(m, ptr + 4))
  }

  /** A string is written for every part, in order, until one write throws. */
  function WriteAll(w: World, parts: seq<seq<byte>>, rs: seq<Reply>): Outcome<seq<nat>>
    requires |rs| == |parts|
    decreases |parts|
  {
    if parts == [] then Outcome(w, Ok([]))
    else
      var first := WriteBytes(w, parts[0], rs[0]);
      match first.result
      case Err(e) => Outcome(first.world, Err(e))
      case Ok(ptr) =>
        var rest := WriteAll(first.world, parts[1..], rs[1..]);
        match rest.result
        case Err(e) => rest
        case Ok(ptrs) => Outcome(rest.world, Ok([ptr] + ptrs))
  }

  /** A UTF-16 code unit of a JavaScript string. */
  type Unit = x: int | 0 <= x < 0x1_0000

  /** TextEncoder and TextDecoder. */
  datatype Codec = Codec(encode: seq<Unit> -> seq<byte>, decode: seq<byte> -> seq<Unit>) {
    function Decoded(b: seq<byte>): seq<Unit> {
      if b == [] then [] else decode(b)
    }
  }

  const LIST_OF_STRINGS := 3

  function ListWords(ptrs: seq<nat>): seq<nat> {
    [|ptrs|, |ptrs|, LIST_OF_STRINGS, 0] + ptrs
  }

  function EncodedParts(c: Codec, str: seq<byte>, delim: seq<byte>): seq<seq<byte>> {
    var parts := Text.Split(c.Decoded(str), c.Decoded(delim));
    seq(|parts|, i requires 0 <= i < |parts| => c.encode(parts[i]))
  }

  /** The parts that will be written, if both arguments can be read. */
  function SplitParts(w: World, c: Codec, lpStr: int, lpDelim: int): Result<seq<seq<byte>>, Error> {
    match (ReadBytes(w.heap.mem, lpStr), ReadBytes(w.heap.mem, lpDelim))
    case (Err(e), _) => Err(e)
    case (Ok(_), Err(e)) => Err(e)
    case (Ok(str), Ok(delim)) => Ok(EncodedParts(c, str, delim))
  }

  function SplitString(w: World, c: Codec, lpStr: int, lpDelim: int, rs: seq<Reply>, r: Reply): Outcome<nat>
    requires SplitParts(w, c, lpStr, lpDelim).Ok? ==> |SplitParts(w, c, lpStr, lpDelim).value| == |rs|
  {
    match SplitParts(w, c, lpStr, lpDelim)
    case Err(e) => Outcome(w, Err(e))
    case Ok(parts) =>
      var written := WriteAll(w, parts, rs);
      match written.result
      case Err(e) => Outcome(written.world, Err(e))
      case Ok(ptrs) => StoreBlock(written.world, ListWords(ptrs), r)
  }

  function MemAlloc(w: World, size: int, r: Reply): Outcome<nat> {
    if size <= 0 then Outcome(w, Ok(0))
    else
      var w1 := AfterMalloc(w, r);
      if r.ptr == 0 then Outcome(w1, Ok(0))
      else Outcome(HandOut(w1, r.ptr, size, false), Ok(r.ptr))
  }
}
