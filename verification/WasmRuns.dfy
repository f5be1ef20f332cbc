/**
 Every run of host writes, interleaved with WASM-side allocations and stores,
 memory growth and nested scopes: blocks never overlap and never change.
*/
module WasmRuns {
  import opened Wrappers
  import opened Numbers
  import opened Bytes
  import opened WasmHeap

  // ---------------------------------------------------------------------
  // One operation
  // ---------------------------------------------------------------------

  /** The invariant holds and every block handed out before is still there. */
  ghost predicate Grows(w: World, w': World) {
    Inv(w') && w.blocks <= w'.blocks
  }

  lemma KeepsBlocks(w: World, h: Heap)
    requires Inv(w) && Extends(w.heap, h)
    ensures Inv(World(h, w.blocks))
  {
    forall i | 0 <= i < |w.blocks| ensures Live(h, w.blocks[i]) {
      var b := w.blocks[i];
      assert Live(w.heap, b);
      if b.contents.Some? {
        SamePrefix(w.heap.mem, h.mem, Min(w.heap.hp, |w.heap.mem|), b.ptr, b.ptr + b.size);
      }
    }
  }

  /** What happens to memory from the block on is no concern of what lies below the bump pointer. */
  lemma ExtendsBelow(h: Heap, r: Reply, m: seq<byte>, hp: int)
    requires Extends(h, Heap(r.mem, r.hp)) && r.ptr >= h.hp && hp >= r.hp && |m| == |r.mem|
    requires var cut := Min(r.ptr, |m|); m[..cut] == r.mem[..cut]
    ensures Extends(h, Heap(m, hp))
  {
    var low := Min(h.hp, |h.mem|);
    SamePrefix(r.mem, m, Min(r.ptr, |m|), 0, low);
  }

  /** Memory changes inside the new block only, so the bump is all the older blocks need. */
  lemma HandOutKeeps(w: World, r: Reply, m: seq<byte>, size: nat, written: bool)
    requires Inv(w) && Honest(w.heap, r) && r.ptr != 0 && size > 0 && Fits(r.ptr, size)
    requires |m| == |r.mem| && var cut := Min(r.ptr, |m|); m[..cut] == r.mem[..cut]
    ensures Grows(w, HandOut(World(Heap(m, r.hp), w.blocks), r.ptr, size, written))
  {
    BumpCoversExactly(r.hp, r.ptr, size);
    ExtendsBelow(w.heap, r, m, Bump(r.hp, r.ptr, size));
    var w' := HandOut(World(Heap(m, r.hp), w.blocks), r.ptr, size, written);
    KeepsBlocks(w, w'.heap);
    var kept := World(w'.heap, w.blocks);
    assert forall i :: 0 <= i < |w.blocks| ==> w'.blocks[i] == w.blocks[i] && Live(w.heap, w.blocks[i]);
    assert forall i :: 0 <= i < |w.blocks| ==> Live(kept.heap, kept.blocks[i]);
    assert forall i, j :: 0 <= i < j < |w.blocks| ==> Apart(w.blocks[i], w.blocks[j]);
  }

  /** A malloc called from WASM code moves the pointer past its block itself, aligned or not. */
  function WasmAllocated(w: World, size: nat, r: Reply): World {
    if r.ptr == 0 then AfterMalloc(w, r) else World(Heap(r.mem, r.hp), w.blocks + [Block(r.ptr, size, None)])
  }

  lemma WasmAllocKeeps(w: World, size: nat, r: Reply)
    requires Inv(w) && Honest(w.heap, r) && size > 0 && (r.ptr != 0 ==> r.hp >= r.ptr + size)
    ensures Grows(w, WasmAllocated(w, size, r))
  {
    KeepsBlocks(w, Heap(r.mem, r.hp));
    var w' := WasmAllocated(w, size, r);
    assert forall i :: 0 <= i < |w.blocks| ==> w'.blocks[i] == w.blocks[i] && Live(w.heap, w.blocks[i]);
    assert forall i :: 0 <= i < |w.blocks| ==> Live(World(Heap(r.mem, r.hp), w.blocks).heap, w.blocks[i]);
  }

  lemma WriteKeeps(w: World, data: seq<byte>, r: Reply)
    requires Inv(w) && Honest(w.heap, r) && Fits(r.ptr, 4 + |data|)
    ensures Grows(w, WriteBytes(w, data, r).world)
  {
    if r.ptr != 0 && r.ptr + 4 + |data| <= |r.mem| {
      var m := Overwrite(Overwrite(r.mem, r.ptr, LE32(|data|)), r.ptr + 4, data);
      HandOutKeeps(w, r, m, 4 + |data|, true);
    } else {
      KeepsBlocks(w, Heap(r.mem, r.hp));
    }
  }

  /** What concatenation asks malloc for; 0 when it allocates nothing. */
  function ConcatSize(m: seq<byte>, a: int, b: int): nat {
    match Prefixes(m, a, b)
    case Err(_) => 0
    case Ok((lenA, lenB)) => if lenA + lenB == 0 then 0 else 4 + lenA + lenB
  }

  lemma JoinIntoKeeps(w: World, r: Reply, a: int, lenA: nat, b: int, lenB: nat)
    requires Inv(w) && Honest(w.heap, r) && r.ptr != 0 && Fits(r.ptr, 4 + lenA + lenB)
    requires r.ptr + 4 <= |r.mem| && 0 <= a && 0 <= b
    ensures Grows(w, HandOut(WithMem(AfterMalloc(w, r), JoinInto(r.mem, r.ptr, a, lenA, b, lenB)), r.ptr, 4 + lenA + lenB, true))
  {
    hide CopyNonEmpty, Overwrite, LE32;
    HandOutKeeps(w, r, JoinInto(r.mem, r.ptr, a, lenA, b, lenB), 4 + lenA + lenB, true);
  }

  lemma ConcatKeeps(w: World, a: int, b: int, r: Reply)
    requires Inv(w) && Honest(w.heap, r) && Fits(r.ptr, ConcatSize(w.heap.mem, a, b))
    ensures Grows(w, Concat(w, a, b, r).world)
  {
    hide JoinInto, U32At, Extends, Bump;
    if ConcatSize(w.heap.mem, a, b) > 0 {
      var (lenA, lenB) := Prefixes(w.heap.mem, a, b).value;
      if r.ptr != 0 && r.ptr + 4 <= |r.mem| {
        JoinIntoKeeps(w, r, a, lenA, b, lenB);
      } else {
        KeepsBlocks(w, Heap(r.mem, r.hp));
      }
    }
  }

  lemma StoreBlockKeeps(w: World, words: seq<nat>, r: Reply)
    requires Inv(w) && Honest(w.heap, r) && Fits(r.ptr, 4 * |words|) && words != []
    ensures Grows(w, StoreBlock(w, words, r).world)
  {
    var s := StoreWords(r.mem, r.ptr, words);
    if r.ptr != 0 && s.ok {
      HandOutKeeps(w, r, s.mem, 4 * |words|, true);
    } else {
      KeepsBlocks(w, Heap(if r.ptr == 0 then r.mem else s.mem, r.hp));
    }
  }

  /** Each of the consecutive writes gets an honest reply. */
  ghost predicate HonestAll(w: World, parts: seq<seq<byte>>, rs: seq<Reply>)
    requires |rs| == |parts|
    decreases |parts|
  {
    parts != [] ==>
      && Honest(w.heap, rs[0]) && Fits(rs[0].ptr, 4 + |parts[0]|)
      && HonestAll(WriteBytes(w, parts[0], rs[0]).world, parts[1..], rs[1..])
  }

  lemma {:induction false} WriteAllKeeps(w: World, parts: seq<seq<byte>>, rs: seq<Reply>)
    requires |rs| == |parts| && Inv(w) && HonestAll(w, parts, rs)
    ensures Grows(w, WriteAll(w, parts, rs).world)
    decreases |parts|
  {
    if parts != [] {
      var first := WriteBytes(w, parts[0], rs[0]);
      WriteKeeps(w, parts[0], rs[0]);
      if first.result.Ok? {
        WriteAllKeeps(first.world, parts[1..], rs[1..]);
      }
    }
  }

  // ---------------------------------------------------------------------
  // Runs
  // ---------------------------------------------------------------------

  datatype Event =
    | Write(data: seq<byte>, r: Reply)
    | Join(a: int, b: int, r: Reply)
    | Box(data: seq<byte>, r: Reply, r2: Reply)
    | Split(codec: Codec, str: int, delim: int, rs: seq<Reply>, r: Reply)
    | Alloc(size: int, r: Reply)
    | WasmAlloc(bytes: nat, r: Reply)            // malloc called from WASM code, which advances __heap_ptr itself
    | WasmStore(block: nat, at: nat, v: byte)   // WASM code writes into a block it owns
    | GrowMemory(extra: nat)
    | Scope(body: seq<Event>, popOk: bool)      // withWasmScope; a scope_pop that traps is swallowed

  /** The environment's side of an event: honest replies, and WASM code that keeps to its own blocks. */
  ghost predicate Possible(w: World, e: Event)
    decreases e, 0
  {
    match e
    case Write(data, r) => Honest(w.heap, r) && Fits(r.ptr, 4 + |data|)
    case Join(a, b, r) => Honest(w.heap, r) && Fits(r.ptr, ConcatSize(w.heap.mem, a, b))
    case Box(data, r, r2) =>
      && Honest(w.heap, r) && Fits(r.ptr, 4 + |data|)
      && Honest(WriteBytes(w, data, r).world.heap, r2) && Fits(r2.ptr, ANY_STRUCT_SIZE)
    case Split(codec, str, delim, rs, r) =>
      var parts := SplitParts(w, codec, str, delim);
      parts.Ok? ==>
        && |rs| == |parts.value| && HonestAll(w, parts.value, rs)
        && Honest(WriteAll(w, parts.value, rs).world.heap, r) && Fits(r.ptr, 16 + 4 * |rs|)
    case Alloc(size, r) => Honest(w.heap, r) && Fits(r.ptr, size)
    case WasmAlloc(size, r) => Honest(w.heap, r) && size > 0 && (r.ptr != 0 ==> r.hp >= r.ptr + size)
    case WasmStore(i, at, v) =>
      && i < |w.blocks| && w.blocks[i].contents.None?
      && w.blocks[i].ptr <= at < w.blocks[i].ptr + w.blocks[i].size && at < |w.heap.mem|
    case GrowMemory(_) => true
    case Scope(body, _) => PossibleRun(w, body)
  }

  ghost predicate PossibleRun(w: World, es: seq<Event>)
    decreases es, 2
  {
    es != [] ==> Possible(w, es[0]) && PossibleRun(Step(w, es[0]), es[1..])
  }

  ghost function Step(w: World, e: Event): World
    requires Possible(w, e)
    decreases e, 1
  {
    match e
    case Write(data, r) => WriteBytes(w, data, r).world
    case Join(a, b, r) => Concat(w, a, b, r).world
    case Box(data, r, r2) => BoxString(w, data, r, r2).world
    case Split(codec, str, delim, rs, r) => SplitString(w, codec, str, delim, rs, r).world
    case Alloc(size, r) => MemAlloc(w, size, r).world
    case WasmAlloc(size, r) => WasmAllocated(w, size, r)
    case WasmStore(_, at, v) => WithMem(w, w.heap.mem[at := v])
    case GrowMemory(extra) => WithMem(w, w.heap.mem + seq(extra, _ => 0))
    case Scope(body, popOk) => if popOk then Rewind(w, Run(w, body)) else Run(w, body)
  }

  ghost function Run(w: World, es: seq<Event>): World
    requires PossibleRun(w, es)
    decreases es, 3
  {
    if es == [] then w else Run(Step(w, es[0]), es[1..])
  }

  /** scope_pop: the bump pointer returns to its entry value, later blocks are dead. */
  function Rewind(entry: World, now: World): World {
    World(Heap(now.heap.mem, entry.heap.hp), entry.blocks)
  }

  lemma RewindKeeps(entry: World, now: World)
    requires Inv(entry) && Grows(entry, now)
    ensures Grows(entry, Rewind(entry, now))
    ensures Rewind(entry, now).heap.hp == entry.heap.hp
  {
    forall i | 0 <= i < |entry.blocks| ensures Live(Rewind(entry, now).heap, entry.blocks[i]) {
      assert now.blocks[i] == entry.blocks[i] && Live(now.heap, now.blocks[i]) && Live(entry.heap, entry.blocks[i]);
    }
  }

  lemma StoreKeeps(w: World, i: nat, at: nat, v: byte)
    requires Inv(w) && Possible(w, WasmStore(i, at, v))
    ensures Inv(WithMem(w, w.heap.mem[at := v]))
  {
    var m := w.heap.mem[at := v];
    forall k | 0 <= k < |w.blocks| ensures Live(Heap(m, w.heap.hp), w.blocks[k]) {
      var b, c := w.blocks[k], w.blocks[i];
      assert Live(w.heap, b);
      assert k < i ==> Apart(b, c);
      assert i < k ==> Apart(c, b);
      if b.contents.Some? {
        assert m[b.ptr..b.ptr + b.size] == w.heap.mem[b.ptr..b.ptr + b.size];
      }
    }
  }

  lemma {:induction false} StepKeeps(w: World, e: Event)
    requires Inv(w) && Possible(w, e)
    ensures Grows(w, Step(w, e))
    decreases e, 0
  {
    hide WriteBytes, StoreBlock, Concat;
    match e
    case Write(data, r) => WriteKeeps(w, data, r);
    case Join(a, b, r) => ConcatKeeps(w, a, b, r);
    case Box(data, r, r2) =>
      WriteKeeps(w, data, r);
      var s := WriteBytes(w, data, r);
      if s.result.Ok? {
        StoreBlockKeeps(s.world, [ANY_TAG_STRING, s.result.value, 0], r2);
      }
    case Split(codec, str, delim, rs, r) =>
      var parts := SplitParts(w, codec, str, delim);
      if parts.Ok? {
        WriteAllKeeps(w, parts.value, rs);
        WriteAllCount(w, parts.value, rs);
        var s := WriteAll(w, parts.value, rs);
        if s.result.Ok? {
          StoreBlockKeeps(s.world, ListWords(s.result.value), r);
        }
      }
    case Alloc(size, r) =>
      if size > 0 && r.ptr != 0 {
        HandOutKeeps(w, r, r.mem, size, false);
      } else if size > 0 {
        KeepsBlocks(w, Heap(r.mem, r.hp));
      }
    case WasmAlloc(size, r) => WasmAllocKeeps(w, size, r);
    case WasmStore(i, at, v) => StoreKeeps(w, i, at, v);
    case GrowMemory(extra) => KeepsBlocks(w, Step(w, e).heap);
    case Scope(body, popOk) =>
      RunKeeps(w, body);
      RewindKeeps(w, Run(w, body));
  }

  lemma {:induction false} WriteAllCount(w: World, parts: seq<seq<byte>>, rs: seq<Reply>)
    requires |rs| == |parts|
    ensures WriteAll(w, parts, rs).result.Ok? ==> |WriteAll(w, parts, rs).result.value| == |parts|
    decreases |parts|
  {
    if parts != [] {
      WriteAllCount(WriteBytes(w, parts[0], rs[0]).world, parts[1..], rs[1..]);
    }
  }

  /** Over every run the invariant holds and no block is ever lost. */
  lemma {:induction false} RunKeeps(w: World, es: seq<Event>)
    requires Inv(w) && PossibleRun(w, es)
    ensures Grows(w, Run(w, es))
    decreases es, 1
  {
    if es != [] {
      StepKeeps(w, es[0]);
      RunKeeps(Step(w, es[0]), es[1..]);
    }
  }

  // ---------------------------------------------------------------------
  // Scopes
  // ---------------------------------------------------------------------

  /**
   A scope that pops gives back everything that was handed out in it, by the host
   and by WASM code, and keeps what was written; one whose pop traps keeps both.
  */
  lemma ScopeRewinds(w: World, body: seq<Event>, popOk: bool)
    requires Possible(w, Scope(body, popOk))
    ensures var t, inside := Step(w, Scope(body, popOk)), Run(w, body);
            && t.heap.mem == inside.heap.mem
            && (popOk ==> t.heap.hp == w.heap.hp && t.blocks == w.blocks)
            && (!popOk ==> t.heap.hp == inside.heap.hp && t.blocks == inside.blocks)
  {
  }

  /** Any number of scopes one after the other leaks nothing, however deep they nest and whatever they allocate. */
  lemma {:induction false} ScopesLeakNothing(w: World, es: seq<Event>)
    requires PossibleRun(w, es) && forall e :: e in es ==> e.Scope? && e.popOk
    ensures Run(w, es).heap.hp == w.heap.hp && Run(w, es).blocks == w.blocks
    decreases |es|
  {
    if es != [] {
      assert es[0] in es && forall e :: e in es[1..] ==> e in es;
      ScopeRewinds(w, es[0].body, true);
      ScopesLeakNothing(Step(w, es[0]), es[1..]);
    }
  }
}
