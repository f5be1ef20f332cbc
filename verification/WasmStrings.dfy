/** What reading gives back: right after an operation, and after any later run. */
module WasmStrings {
  import opened Wrappers
  import opened Numbers
  import opened Bytes
  import opened WasmHeap
  import opened WasmRuns
  import Text

  /** The block holds `data` in the length-prefixed layout. */
  ghost predicate Holds(b: Block, data: seq<byte>) {
    b.size == 4 + |data| && b.contents == Some(LE32(|data|) + data)
  }

  lemma PrefixedReads(m: seq<byte>, p: int, data: seq<byte>)
    requires 0 < p && p + 4 + |data| <= |m| && |data| < TWO_TO_32
    requires m[p..p + 4 + |data|] == LE32(|data|) + data
    ensures ReadBytes(m, p) == Ok(data)
  {
    var block := m[p..p + 4 + |data|];
    assert m[p..p + 4] == block[..4] == LE32(|data|);
    WordAt(m, p, |data|);
    assert m[p + 4..p + 4 + |data|] == block[4..];
  }

  lemma BlockReads(w: World, i: nat, data: seq<byte>)
    requires Inv(w) && i < |w.blocks| && Holds(w.blocks[i], data) && |data| < TWO_TO_32
    ensures ReadBytes(w.heap.mem, w.blocks[i].ptr) == Ok(data)
  {
    assert Live(w.heap, w.blocks[i]);
    PrefixedReads(w.heap.mem, w.blocks[i].ptr, data);
  }

  /** A string handed out before a run reads back the same after it, and overlaps no other block. */
  lemma EarlierStringsReadBack(w: World, es: seq<Event>, i: nat, data: seq<byte>)
    requires Inv(w) && PossibleRun(w, es)
    requires i < |w.blocks| && Holds(w.blocks[i], data) && |data| < TWO_TO_32
    ensures ReadBytes(Run(w, es).heap.mem, w.blocks[i].ptr) == Ok(data)
    ensures forall j :: 0 <= j < |Run(w, es).blocks| && j != i ==> Apart(w.blocks[i], Run(w, es).blocks[j])
  {
    RunKeeps(w, es);
    var w' := Run(w, es);
    assert w'.blocks[i] == w.blocks[i];
    BlockReads(w', i, data);
  }

  /** A write succeeds exactly when malloc gave a pointer that fits the memory, and its block holds the data. */
  lemma WriteHolds(w: World, data: seq<byte>, r: Reply)
    requires Inv(w) && Honest(w.heap, r) && Fits(r.ptr, 4 + |data|)
    ensures var o := WriteBytes(w, data, r);
            && (o.result.Ok? <==> r.ptr != 0 && r.ptr + 4 + |data| <= |r.mem|)
            && (o.result.Ok? ==>
                  && o.result.value == r.ptr
                  && o.world.blocks == w.blocks + [Block(r.ptr, 4 + |data|, Some(LE32(|data|) + data))]
                  && ReadBytes(o.world.heap.mem, r.ptr) == Ok(data))
            && (o.result.Err? ==> o.world.blocks == w.blocks)
  {
    var o := WriteBytes(w, data, r);
    if o.result.Ok? {
      var m1 := Overwrite(r.mem, r.ptr, LE32(|data|));
      var m := Overwrite(m1, r.ptr + 4, data);
      assert m[r.ptr..r.ptr + 4] == m1[r.ptr..r.ptr + 4];
      assert m[r.ptr..r.ptr + 4 + |data|] == m[r.ptr..r.ptr + 4] + m[r.ptr + 4..r.ptr + 4 + |data|];
      PrefixedReads(m, r.ptr, data);
    }
  }

  // ---------------------------------------------------------------------
  // Concatenation
  // ---------------------------------------------------------------------

  /** `p` is a readable string that lies wholly below the bump pointer. */
  ghost predicate StringAt(h: Heap, p: int, data: seq<byte>) {
    ReadBytes(h.mem, p) == Ok(data) && (p == 0 || p + 4 + |data| <= h.hp)
  }

  lemma StringStays(h: Heap, h': Heap, p: int, data: seq<byte>)
    requires StringAt(h, p, data) && Extends(h, h')
    ensures StringAt(h', p, data)
  {
    if p != 0 {
      var cut := Min(h.hp, |h.mem|);
      SamePrefix(h.mem, h'.mem, cut, p, p + 4);
      if data != [] {
        SamePrefix(h.mem, h'.mem, cut, p + 4, p + 4 + |data|);
      }
    }
  }

  lemma ThreeStores(m1: seq<byte>, m2: seq<byte>, m3: seq<byte>, ptr: nat, header: seq<byte>, dataA: seq<byte>, dataB: seq<byte>)
    requires |m1| == |m2| == |m3| && |header| == 4 && ptr + 4 + |dataA| + |dataB| <= |m1|
    requires m1[ptr..ptr + 4] == header
    requires m2[ptr + 4..ptr + 4 + |dataA|] == dataA && m2[..ptr + 4] == m1[..ptr + 4]
    requires m3[ptr + 4 + |dataA|..ptr + 4 + |dataA| + |dataB|] == dataB
    requires m3[..ptr + 4 + |dataA|] == m2[..ptr + 4 + |dataA|]
    ensures m3[ptr..ptr + 4 + |dataA| + |dataB|] == header + (dataA + dataB)
  {
    hide LE32;
    var cut := ptr + 4 + |dataA|;
    SamePrefix(m1, m2, ptr + 4, ptr, ptr + 4);
    SamePrefix(m2, m3, cut, ptr, cut);
    assert m2[ptr..cut] == m2[ptr..ptr + 4] + m2[ptr + 4..cut];
    assert m3[ptr..cut + |dataB|] == m3[ptr..cut] + m3[cut..cut + |dataB|];
  }

  lemma FirstTwoStores(m: seq<byte>, ptr: nat, header: seq<byte>, a: nat, data: seq<byte>)
    returns (m1: seq<byte>, m2: seq<byte>)
    requires |header| == 4 && ptr + 4 + |data| <= |m|
    requires data != [] ==> a + 4 + |data| <= ptr && m[a + 4..a + 4 + |data|] == data
    ensures m1 == Overwrite(m, ptr, header) && m2 == CopyNonEmpty(m1, ptr + 4, a + 4, |data|)
    ensures m1[ptr..ptr + 4] == header && m2[..ptr] == m[..ptr]
    ensures m2[ptr + 4..ptr + 4 + |data|] == data && m2[..ptr + 4] == m1[..ptr + 4]
  {
    m1 := Overwrite(m, ptr, header);
    assert m1[..ptr] == m[..ptr];
    if data != [] { SamePrefix(m, m1, ptr, a + 4, a + 4 + |data|); }
    CopyLands(m1, ptr + 4, a + 4, data);
    m2 := CopyNonEmpty(m1, ptr + 4, a + 4, |data|);
    SamePrefix(m1, m2, ptr + 4, 0, ptr);
    assert m2[0..ptr] == m2[..ptr];
  }

  lemma AllStores(m: seq<byte>, ptr: nat, header: seq<byte>, a: nat, dataA: seq<byte>, b: nat, dataB: seq<byte>)
    returns (m3: seq<byte>)
    requires |header| == 4 && ptr + 4 + |dataA| + |dataB| <= |m|
    requires dataA != [] ==> a + 4 + |dataA| <= ptr && m[a + 4..a + 4 + |dataA|] == dataA
    requires dataB != [] ==> b + 4 + |dataB| <= ptr && m[b + 4..b + 4 + |dataB|] == dataB
    ensures m3 == CopyNonEmpty(CopyNonEmpty(Overwrite(m, ptr, header), ptr + 4, a + 4, |dataA|),
                               ptr + 4 + |dataA|, b + 4, |dataB|)
    ensures m3[ptr..ptr + 4 + |dataA| + |dataB|] == header + (dataA + dataB)
  {
    hide CopyNonEmpty, Overwrite;
    var m1, m2 := FirstTwoStores(m, ptr, header, a, dataA);
    if dataB != [] { SamePrefix(m, m2, ptr, b + 4, b + 4 + |dataB|); }
    CopyLands(m2, ptr + 4 + |dataA|, b + 4, dataB);
    m3 := CopyNonEmpty(m2, ptr + 4 + |dataA|, b + 4, |dataB|);
    ThreeStores(m1, m2, m3, ptr, header, dataA, dataB);
  }

  /** Two empty inputs give the null pointer and touch nothing. */
  lemma ConcatOfEmpty(w: World, a: int, b: int, r: Reply)
    requires StringAt(w.heap, a, []) && StringAt(w.heap, b, [])
    ensures Concat(w, a, b, r) == Outcome(w, Ok(0))
  {
  }

  lemma InputStays(h: Heap, p: int, data: seq<byte>, r: Reply)
    requires StringAt(h, p, data) && Honest(h, r) && r.ptr != 0
    ensures PrefixAt(h.mem, p) == Ok(|data|) && p >= 0
    ensures data != [] ==> p + 4 + |data| <= r.ptr && p + 4 + |data| <= |r.mem| && r.mem[p + 4..p + 4 + |data|] == data
  {
    if data != [] {
      SamePrefix(h.mem, r.mem, Min(h.hp, |h.mem|), p + 4, p + 4 + |data|);
    }
  }

  /** Nothing below the block changes, and in range the block holds both inputs. */
  lemma JoinIntoHolds(m: seq<byte>, ptr: nat, a: nat, dataA: seq<byte>, b: nat, dataB: seq<byte>)
    requires ptr + 4 <= |m|
    requires dataA != [] ==> a + 4 + |dataA| <= ptr && m[a + 4..a + 4 + |dataA|] == dataA
    requires dataB != [] ==> b + 4 + |dataB| <= ptr && m[b + 4..b + 4 + |dataB|] == dataB
    ensures var m' := JoinInto(m, ptr, a, |dataA|, b, |dataB|);
            && m'[..ptr] == m[..ptr]
            && (ptr + 4 + |dataA| + |dataB| <= |m| ==>
                  m'[ptr..ptr + 4 + |dataA| + |dataB|] == LE32(|dataA| + |dataB|) + (dataA + dataB))
  {
    if ptr + 4 + |dataA| + |dataB| <= |m| {
      var _ := AllStores(m, ptr, LE32(|dataA| + |dataB|), a, dataA, b, dataB);
    }
  }

  lemma ConcatShape(w: World, a: int, dataA: seq<byte>, b: int, dataB: seq<byte>, r: Reply)
    requires StringAt(w.heap, a, dataA) && StringAt(w.heap, b, dataB) && dataA + dataB != []
    requires r.ptr != 0 && r.ptr + 4 <= |r.mem|
    ensures a >= 0 && b >= 0
    ensures Concat(w, a, b, r) ==
            Outcome(HandOut(World(Heap(JoinInto(r.mem, r.ptr, a, |dataA|, b, |dataB|), r.hp), w.blocks),
                            r.ptr, 4 + |dataA| + |dataB|, true),
                    Ok(r.ptr))
  {
    hide JoinInto, LE32;
    assert Prefixes(w.heap.mem, a, b) == Ok((|dataA|, |dataB|));
  }

  lemma InputsStay(w: World, a: int, dataA: seq<byte>, b: int, dataB: seq<byte>, r: Reply, m: seq<byte>, hp: int)
    requires StringAt(w.heap, a, dataA) && StringAt(w.heap, b, dataB)
    requires Honest(w.heap, r) && r.ptr != 0 && hp >= r.hp
    requires r.ptr <= |m| == |r.mem| && m[..r.ptr] == r.mem[..r.ptr]
    ensures StringAt(Heap(m, hp), a, dataA) && StringAt(Heap(m, hp), b, dataB)
  {
    ExtendsBelow(w.heap, r, m, hp);
    StringStays(w.heap, Heap(m, hp), a, dataA);
    StringStays(w.heap, Heap(m, hp), b, dataB);
  }

  lemma NonEmptyReadsExactly(m: seq<byte>, p: nat, data: seq<byte>)
    requires 0 < p && data != [] && |data| < TWO_TO_32
    requires p + 4 + |data| <= |m| ==> m[p..p + 4 + |data|] == LE32(|data|) + data
    ensures ReadBytes(m, p) == Ok(data) <==> p + 4 + |data| <= |m|
  {
    if p + 4 + |data| <= |m| {
      PrefixedReads(m, p, data);
    }
  }

  /** The world `w'` a concatenation of `dataA` at `a` and `dataB` at `b` leaves, with its result at `p`. */
  ghost predicate Concatenated(w: World, a: int, dataA: seq<byte>, b: int, dataB: seq<byte>, p: int, w': World) {
    var data, room := dataA + dataB, |w'.heap.mem|;
    // it reads back exactly when the block fits the memory
    && (ReadBytes(w'.heap.mem, p) == Ok(data) <==> p + 4 + |data| <= room)
    && (p + 4 + |data| <= room ==> StringAt(w'.heap, p, data))
    // both inputs are left as they were, and the result overlaps neither
    && StringAt(w'.heap, a, dataA) && StringAt(w'.heap, b, dataB)
    && (a != 0 ==> a + 4 + |dataA| <= p) && (b != 0 ==> b + 4 + |dataB| <= p)
    // one more block is handed out
    && |w'.blocks| == |w.blocks| + 1 && w.blocks <= w'.blocks
    && w'.blocks[|w.blocks|].ptr == p
    && (p + 4 + |data| <= room ==> Holds(w'.blocks[|w.blocks|], data))
  }

  lemma ConcatenatedIn(w: World, a: int, dataA: seq<byte>, b: int, dataB: seq<byte>, r: Reply, m: seq<byte>)
    requires StringAt(w.heap, a, dataA) && StringAt(w.heap, b, dataB) && dataA + dataB != []
    requires Honest(w.heap, r) && r.ptr != 0 && Fits(r.ptr, 4 + |dataA| + |dataB|) && 0 <= w.heap.hp
    requires r.ptr <= |m| == |r.mem| && m[..r.ptr] == r.mem[..r.ptr]
    requires r.ptr + 4 + |dataA| + |dataB| <= |m| ==>
               m[r.ptr..r.ptr + 4 + |dataA| + |dataB|] == LE32(|dataA| + |dataB|) + (dataA + dataB)
    ensures Concatenated(w, a, dataA, b, dataB, r.ptr,
                         HandOut(World(Heap(m, r.hp), w.blocks), r.ptr, 4 + |dataA| + |dataB|, true))
  {
    hide LE32, ReadBytes;
    var hp := Bump(r.hp, r.ptr, 4 + |dataA| + |dataB|);
    assert |dataA + dataB| == |dataA| + |dataB|;
    BumpCoversExactly(r.hp, r.ptr, 4 + |dataA| + |dataB|);
    NonEmptyReadsExactly(m, r.ptr, dataA + dataB);
    InputsStay(w, a, dataA, b, dataB, r, m, hp);
  }

  /**
   A non-empty concatenation has no bounds check of its own: it reads back as
   the bytes of both inputs exactly when the block malloc gave fits the memory.
  */
  lemma ConcatReadsBackExactly(w: World, a: int, dataA: seq<byte>, b: int, dataB: seq<byte>, r: Reply)
    requires Inv(w) && StringAt(w.heap, a, dataA) && StringAt(w.heap, b, dataB) && dataA + dataB != []
    requires Honest(w.heap, r) && r.ptr != 0 && r.ptr + 4 <= |r.mem| && Fits(r.ptr, 4 + |dataA| + |dataB|)
    ensures Concat(w, a, b, r).result == Ok(r.ptr) && |Concat(w, a, b, r).world.heap.mem| == |r.mem|
    ensures Concatenated(w, a, dataA, b, dataB, r.ptr, Concat(w, a, b, r).world)
  {
    InputStays(w.heap, a, dataA, r);
    InputStays(w.heap, b, dataB, r);
    ConcatShape(w, a, dataA, b, dataB, r);
    JoinIntoHolds(r.mem, r.ptr, a, dataA, b, dataB);
    ConcatenatedIn(w, a, dataA, b, dataB, r, JoinInto(r.mem, r.ptr, a, |dataA|, b, |dataB|));
  }

  /** Such a block does not always fit: one byte too many, and the result cannot be read at all. */
  lemma ConcatCanOverrun() returns (w: World, a: int, r: Reply)
    ensures Inv(w) && StringAt(w.heap, a, [7]) && Honest(w.heap, r) && Fits(r.ptr, 5)
    ensures Concat(w, a, 0, r).result == Ok(r.ptr) && ReadBytes(Concat(w, a, 0, r).world.heap.mem, r.ptr).Err?
  {
    var m := [0, 0, 0, 0] + (LE32(1) + [7]) + [0, 0, 0, 0, 0, 0, 0];
    w, a, r := World(Heap(m, 9), []), 4, Reply(12, m, 12);
    assert m[4..9] == LE32(1) + [7];
    PrefixedReads(m, 4, [7]);
    assert StringAt(w.heap, 0, []);
    ConcatReadsBackExactly(w, a, [7], 0, [], r);
    hide LE32, JoinInto;
    OverrunUnreadable(w, a, r);
  }

  lemma OverrunUnreadable(w: World, a: int, r: Reply)
    requires StringAt(w.heap, a, [7]) && Honest(w.heap, r) && r.ptr == 12 && |r.mem| == 16
    ensures ReadBytes(Concat(w, a, 0, r).world.heap.mem, r.ptr).Err?
  {
    ConcatShape(w, a, [7], 0, [], r);
    var m1 := Overwrite(r.mem, 12, LE32(1));
    assert m1[12..16] == LE32(1);
    WordAt(m1, 12, 1);
  }

  // ---------------------------------------------------------------------
  // Accumulating one-byte fragments
  // ---------------------------------------------------------------------

  /** The two replies one turn of `acc = acc + fragment` gets. */
  datatype Turn = Turn(fragment: Reply, joined: Reply)

  /** One turn: the byte becomes a string of its own and is appended. */
  function AppendByte(w: World, acc: int, b: seq<byte>, t: Turn): Outcome<nat> {
    var fragment := WriteBytes(w, b, t.fragment);
    match fragment.result
    case Err(_) => fragment
    case Ok(p) => Concat(fragment.world, acc, p, t.joined)
  }

  function Accumulate(w: World, acc: int, data: seq<byte>, turns: seq<Turn>): Outcome<int>
    requires |turns| == |data|
    decreases |data|
  {
    if data == [] then Outcome(w, Ok(acc))
    else
      var o := AppendByte(w, acc, data[..1], turns[0]);
      match o.result
      case Err(e) => Outcome(o.world, Err(e))
      case Ok(acc') => Accumulate(o.world, acc', data[1..], turns[1..])
  }

  ghost predicate Roomy(h: Heap, r: Reply, size: nat) {
    Honest(h, r) && r.ptr != 0 && Fits(r.ptr, size) && r.ptr + size <= |r.mem|
  }

  ghost predicate RoomyTurn(w: World, have: nat, b: seq<byte>, t: Turn) {
    && Roomy(w.heap, t.fragment, 5)
    && Roomy(WriteBytes(w, b, t.fragment).world.heap, t.joined, 5 + have)
  }

  /** Every allocation of the loop succeeds inside the memory; `have` bytes are accumulated so far. */
  ghost predicate RoomyTurns(w: World, acc: int, have: nat, data: seq<byte>, turns: seq<Turn>)
    requires |turns| == |data|
    decreases |data|
  {
    data != [] ==>
      && RoomyTurn(w, have, data[..1], turns[0])
      && RoomyTurns(AppendByte(w, acc, data[..1], turns[0]).world, turns[0].joined.ptr, have + 1, data[1..], turns[1..])
  }

  lemma AppendByteHolds(w: World, acc: int, have: seq<byte>, b: seq<byte>, t: Turn)
    requires Inv(w) && StringAt(w.heap, acc, have) && |b| == 1 && RoomyTurn(w, |have|, b, t)
    ensures var o := AppendByte(w, acc, b, t);
            o.result == Ok(t.joined.ptr) && Inv(o.world) && StringAt(o.world.heap, t.joined.ptr, have + b)
  {
    WriteKeeps(w, b, t.fragment);
    WriteHolds(w, b, t.fragment);
    var w1 := WriteBytes(w, b, t.fragment).world;
    assert StringAt(w1.heap, acc, have) by { WriteExtends(w, b, t.fragment); StringStays(w.heap, w1.heap, acc, have); }
    assert StringAt(w1.heap, t.fragment.ptr, b) by { assert Live(w1.heap, w1.blocks[|w.blocks|]); }
    assert |have + b| == |have| + 1;
    AppendStringHolds(w1, acc, have, t.fragment.ptr, b, t.joined);
  }

  lemma AppendStringHolds(w: World, a: int, dataA: seq<byte>, b: int, dataB: seq<byte>, r: Reply)
    requires Inv(w) && StringAt(w.heap, a, dataA) && StringAt(w.heap, b, dataB) && dataA + dataB != []
    requires Roomy(w.heap, r, 4 + |dataA| + |dataB|)
    ensures var o := Concat(w, a, b, r);
            o.result == Ok(r.ptr) && Inv(o.world) && StringAt(o.world.heap, r.ptr, dataA + dataB)
  {
    ConcatReadsBackExactly(w, a, dataA, b, dataB, r);
    assert ConcatSize(w.heap.mem, a, b) == 4 + |dataA| + |dataB|;
    ConcatKeeps(w, a, b, r);
  }

  lemma WriteExtends(w: World, data: seq<byte>, r: Reply)
    requires Honest(w.heap, r) && Fits(r.ptr, 4 + |data|) && 0 <= w.heap.hp
    ensures Extends(w.heap, WriteBytes(w, data, r).world.heap)
  {
    if r.ptr != 0 && r.ptr + 4 + |data| <= |r.mem| {
      var m1 := Overwrite(r.mem, r.ptr, LE32(|data|));
      var m := Overwrite(m1, r.ptr + 4, data);
      assert m[..r.ptr] == r.mem[..r.ptr];
      BumpCoversExactly(r.hp, r.ptr, 4 + |data|);
      ExtendsBelow(w.heap, r, m, Bump(r.hp, r.ptr, 4 + |data|));
    }
  }

  lemma AccumulateTurn(w: World, acc: int, have: seq<byte>, data: seq<byte>, turns: seq<Turn>) returns (w': World)
    requires |turns| == |data| > 0 && Inv(w) && StringAt(w.heap, acc, have) && RoomyTurns(w, acc, |have|, data, turns)
    ensures Inv(w') && StringAt(w'.heap, turns[0].joined.ptr, have + data[..1])
    ensures RoomyTurns(w', turns[0].joined.ptr, |have| + 1, data[1..], turns[1..])
    ensures Accumulate(w, acc, data, turns) == Accumulate(w', turns[0].joined.ptr, data[1..], turns[1..])
  {
    hide WriteBytes, Concat, StringAt, Inv, RoomyTurn;
    AppendByteHolds(w, acc, have, data[..1], turns[0]);
    w' := AppendByte(w, acc, data[..1], turns[0]).world;
  }

  /** Folding concatenation over one-byte fragments rebuilds any byte string, valid UTF-8 or not. */
  lemma {:induction false} AccumulateRebuilds(w: World, acc: int, have: seq<byte>, data: seq<byte>, turns: seq<Turn>)
    requires |turns| == |data| && Inv(w) && StringAt(w.heap, acc, have) && RoomyTurns(w, acc, |have|, data, turns)
    ensures var o := Accumulate(w, acc, data, turns);
            o.result.Ok? && Inv(o.world) && StringAt(o.world.heap, o.result.value, have + data)
    decreases |data|
  {
    hide AppendByte, RoomyTurn, StringAt, Inv;
    if data == [] {
      assert have + data == have;
    } else {
      var w' := AccumulateTurn(w, acc, have, data, turns);
      AccumulateRebuilds(w', turns[0].joined.ptr, have + data[..1], data[1..], turns[1..]);
      assert have + data == (have + data[..1]) + data[1..];
    }
  }

  // ---------------------------------------------------------------------
  // Boxed strings
  // ---------------------------------------------------------------------

  lemma StoreBlockHolds(w: World, words: seq<nat>, r: Reply)
    requires Inv(w) && Honest(w.heap, r) && words != [] && Fits(r.ptr, 4 * |words|)
    ensures var o := StoreBlock(w, words, r);
            && (o.result.Ok? <==> r.ptr != 0 && r.ptr + 4 * |words| <= |r.mem|)
            && (o.result.Ok? ==>
                  && o.result.value == r.ptr
                  && o.world.blocks == w.blocks + [Block(r.ptr, 4 * |words|, Some(Flat(words)))]
                  && r.ptr + 4 * |words| <= |o.world.heap.mem|
                  && o.world.heap.mem[r.ptr..r.ptr + 4 * |words|] == Flat(words))
  {
    hide Flat, LE32, Extends, StoreWords, Bump;
  }

  lemma WordReads(m: seq<byte>, p: nat, words: seq<nat>, k: nat)
    requires k < |words| && words[k] < TWO_TO_32
    requires p + 4 * |words| <= |m| && m[p..p + 4 * |words|] == Flat(words)
    ensures U32At(m, p + 4 * k) == words[k]
  {
    hide LE32, LEBytes, LEValue, Flat;
    FlatAt(words, k);
    SliceOfSlice(m, p, p + 4 * |words|, 4 * k, 4 * k + 4);
    WordAt(m, p + 4 * k, words[k]);
  }

  lemma BoxedReads(w: World, p: nat, lp: nat, i: nat, data: seq<byte>)
    requires Inv(w) && i < |w.blocks| && Holds(w.blocks[i], data) && w.blocks[i].ptr == lp
    requires |data| < TWO_TO_32 && lp < TWO_TO_32 && p != 0
    requires var words := [ANY_TAG_STRING, lp, 0];
             p + 12 <= |w.heap.mem| && w.heap.mem[p..p + 4 * |words|] == Flat(words)
    ensures ReadAny(w.heap.mem, p) == Ok(data)
  {
    hide Flat, ReadBytes, Inv;
    var words := [ANY_TAG_STRING, lp, 0];
    WordReads(w.heap.mem, p, words, 0);
    WordReads(w.heap.mem, p, words, 1);
    BlockReads(w, i, data);
  }

  /** A boxed string reads back through the boxed pointer. */
  lemma BoxReadsBack(w: World, data: seq<byte>, r1: Reply, r2: Reply)
    requires Inv(w) && Possible(w, Box(data, r1, r2))
    ensures var o := BoxString(w, data, r1, r2);
            && Inv(o.world)
            && (o.result.Ok? ==> o.result.value != 0 && ReadAny(o.world.heap.mem, o.result.value) == Ok(data))
  {
    hide LE32, Flat, ReadBytes, ReadAny, StoreWords, Overwrite;
    var s := WriteBytes(w, data, r1);
    StepKeeps(w, Box(data, r1, r2));
    WriteKeeps(w, data, r1);
    WriteHolds(w, data, r1);
    var o := BoxString(w, data, r1, r2);
    if o.result.Ok? {
      StoreBlockHolds(s.world, [ANY_TAG_STRING, r1.ptr, 0], r2);
      assert o.world.blocks[|w.blocks|] == s.world.blocks[|w.blocks|];
      BoxedReads(o.world, r2.ptr, r1.ptr, |w.blocks|, data);
    }
  }

  // ---------------------------------------------------------------------
  // Splitting
  // ---------------------------------------------------------------------

  function ReadElements(m: seq<byte>, at: nat, n: nat): Result<seq<seq<byte>>, Error>
    decreases n
  {
    if n == 0 then Ok([])
    else if at + 4 > |m| then Err(RangeError)
    else
      match (ReadBytes(m, U32At(m, at)), ReadElements(m, at + 4, n - 1))
      case (Err(e), _) => Err(e)
      case (Ok(_), Err(e)) => Err(e)
      case (Ok(first), Ok(rest)) => Ok([first] + rest)
  }

  /** A list of strings as compiled code walks it: the length, then one pointer an element from offset 16. */
  function ReadList(m: seq<byte>, p: nat): Result<seq<seq<byte>>, Error> {
    if p + 4 > |m| then Err(RangeError) else ReadElements(m, p + 16, U32At(m, p))
  }

  ghost predicate ElementAt(m: seq<byte>, at: nat, i: nat, part: seq<byte>) {
    at + 4 * i + 4 <= |m| && ReadBytes(m, U32At(m, at + 4 * i)) == Ok(part)
  }

  lemma {:induction false} ElementsRead(m: seq<byte>, at: nat, parts: seq<seq<byte>>)
    requires forall i :: 0 <= i < |parts| ==> ElementAt(m, at, i, parts[i])
    ensures ReadElements(m, at, |parts|) == Ok(parts)
    decreases |parts|
  {
    if parts != [] {
      assert ElementAt(m, at, 0, parts[0]);
      forall i | 0 <= i < |parts| - 1 ensures ElementAt(m, at + 4, i, parts[1..][i]) {
        assert ElementAt(m, at, i + 1, parts[i + 1]);
        assert at + 4 + 4 * i == at + 4 * (i + 1);
      }
      ElementsRead(m, at + 4, parts[1..]);
      assert parts == [parts[0]] + parts[1..];
    }
  }

  function StringBlock(ptr: nat, data: seq<byte>): Block {
    Block(ptr, 4 + |data|, Some(LE32(|data|) + data))
  }

  lemma {:induction false} WriteAllHolds(w: World, parts: seq<seq<byte>>, rs: seq<Reply>)
    requires |rs| == |parts| && Inv(w) && HonestAll(w, parts, rs)
    ensures var o := WriteAll(w, parts, rs);
            o.result.Ok? ==>
              && |o.result.value| == |parts|
              && o.world.blocks == w.blocks + seq(|parts|, i requires 0 <= i < |parts| => StringBlock(o.result.value[i], parts[i]))
              && forall i :: 0 <= i < |parts| ==> o.result.value[i] < TWO_TO_31 && |parts[i]| < TWO_TO_31
    decreases |parts|
  {
    hide ReadBytes, LE32, Overwrite, Extends;
    if parts != [] {
      var first := WriteBytes(w, parts[0], rs[0]);
      WriteKeeps(w, parts[0], rs[0]);
      WriteHolds(w, parts[0], rs[0]);
      if first.result.Ok? {
        WriteAllHolds(first.world, parts[1..], rs[1..]);
        var o := WriteAll(w, parts, rs);
        if o.result.Ok? {
          var ptrs := o.result.value;
          var all := seq(|parts|, i requires 0 <= i < |parts| => StringBlock(ptrs[i], parts[i]));
          assert all == [StringBlock(ptrs[0], parts[0])] + all[1..];
          assert ptrs[1..] == WriteAll(first.world, parts[1..], rs[1..]).result.value;
        }
      }
    }
  }

  /** A list block whose pointers name string blocks reads as their contents. */
  lemma ListReads(w: World, p: nat, ptrs: seq<nat>, parts: seq<seq<byte>>, first: nat)
    requires Inv(w) && |ptrs| == |parts| < TWO_TO_31 && first + |parts| <= |w.blocks|
    requires p + 16 + 4 * |ptrs| <= |w.heap.mem| && w.heap.mem[p..p + 16 + 4 * |ptrs|] == Flat(ListWords(ptrs))
    requires forall i :: 0 <= i < |parts| ==>
               ptrs[i] < TWO_TO_31 && |parts[i]| < TWO_TO_31 && w.blocks[first + i] == StringBlock(ptrs[i], parts[i])
    ensures ReadList(w.heap.mem, p) == Ok(parts)
  {
    hide Flat, LE32, ReadBytes;
    var m, words := w.heap.mem, ListWords(ptrs);
    WordReads(m, p, words, 0);
    forall i | 0 <= i < |parts| ensures ElementAt(m, p + 16, i, parts[i]) {
      assert words[i + 4] == ptrs[i] && p + 4 * (i + 4) == p + 16 + 4 * i;
      WordReads(m, p, words, i + 4);
      BlockReads(w, first + i, parts[i]);
    }
    ElementsRead(m, p + 16, parts);
  }

  /** The list that string splitting returns decodes to the encoded parts. */
  lemma SplitReadsBack(w: World, c: Codec, str: int, delim: int, rs: seq<Reply>, r: Reply)
    requires Inv(w) && Possible(w, Split(c, str, delim, rs, r)) && SplitParts(w, c, str, delim).Ok?
    ensures var o := SplitString(w, c, str, delim, rs, r);
            && Inv(o.world)
            && (o.result.Ok? ==> ReadList(o.world.heap.mem, o.result.value) == SplitParts(w, c, str, delim))
  {
    hide ReadBytes, WriteBytes, StoreWords, Flat, LE32;
    StepKeeps(w, Split(c, str, delim, rs, r));
    var parts := SplitParts(w, c, str, delim).value;
    WriteAllKeeps(w, parts, rs);
    WriteAllHolds(w, parts, rs);
    var s := WriteAll(w, parts, rs);
    if s.result.Ok? {
      StoreBlockHolds(s.world, ListWords(s.result.value), r);
      var o := StoreBlock(s.world, ListWords(s.result.value), r);
      if o.result.Ok? {
        ListReads(o.world, r.ptr, s.result.value, parts, |w.blocks|);
      }
    }
  }

  /**
   When the codec restores every part, the decoded list holds the parts and
   joining them with the delimiter gives the source text.
  */
  lemma SplitJoinsBack(w: World, c: Codec, str: int, delim: int, rs: seq<Reply>, r: Reply)
    requires Inv(w) && Possible(w, Split(c, str, delim, rs, r))
    requires ReadBytes(w.heap.mem, str).Ok? && ReadBytes(w.heap.mem, delim).Ok?
    requires var text, sep := c.Decoded(ReadBytes(w.heap.mem, str).value), c.Decoded(ReadBytes(w.heap.mem, delim).value);
             forall part :: part in Text.Split(text, sep) ==> c.Decoded(c.encode(part)) == part
    requires SplitString(w, c, str, delim, rs, r).result.Ok?
    ensures var o := SplitString(w, c, str, delim, rs, r);
            var text, sep := c.Decoded(ReadBytes(w.heap.mem, str).value), c.Decoded(ReadBytes(w.heap.mem, delim).value);
            var list := ReadList(o.world.heap.mem, o.result.value);
            && list.Ok?
            && var decoded := seq(|list.value|, i requires 0 <= i < |list.value| => c.Decoded(list.value[i]));
            decoded == Text.Split(text, sep) && Text.Join(decoded, sep) == text
  {
    hide ReadBytes, StoreBlock, WriteAll;
    SplitReadsBack(w, c, str, delim, rs, r);
    var text, sep := c.Decoded(ReadBytes(w.heap.mem, str).value), c.Decoded(ReadBytes(w.heap.mem, delim).value);
    var parts := Text.Split(text, sep);
    var o := SplitString(w, c, str, delim, rs, r);
    var list := ReadList(o.world.heap.mem, o.result.value).value;
    assert list == EncodedParts(c, ReadBytes(w.heap.mem, str).value, ReadBytes(w.heap.mem, delim).value);
    assert forall i :: 0 <= i < |parts| ==> parts[i] in parts && c.Decoded(list[i]) == parts[i];
    assert seq(|list|, i requires 0 <= i < |list| => c.Decoded(list[i])) == parts;
    Text.JoinUndoesSplit(text, sep);
  }
}
