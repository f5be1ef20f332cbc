/** What a caller of each memory operation gets back, and what is left of it after any run. */
module WasmOutcomes {
  import opened Wrappers
  import opened Numbers
  import opened Bytes
  import opened WasmHeap
  import opened WasmRuns
  import opened WasmStrings

  // ---------------------------------------------------------------------
  // Reading
  // ---------------------------------------------------------------------

  lemma PrefixIs(m: seq<byte>, at: nat, n: nat)
    requires at + 4 <= |m| && n < TWO_TO_32
    ensures U32At(m, at) == n <==> m[at..at + 4] == LE32(n)
  {
    Pow256Of4();
    LEBytesOfValue(m[at..at + 4]);
    LERoundTrip(n, 4);
  }

  /** A string that is not empty is read exactly when its length and its bytes stand at a pointer that is not null. */
  lemma ReadsExactly(m: seq<byte>, ptr: int, data: seq<byte>)
    requires data != [] && |data| < TWO_TO_32
    ensures ReadBytes(m, ptr) == Ok(data) <==>
            ptr > 0 && ptr + 4 + |data| <= |m| && m[ptr..ptr + 4] == LE32(|data|) && m[ptr + 4..ptr + 4 + |data|] == data
  {
    hide LE32;
    if ptr > 0 && ptr + 4 <= |m| {
      PrefixIs(m, ptr, |data|);
    }
  }

  /** The empty string is what null and a zero length stand for; every other reading fails, on the prefix or on the length. */
  lemma ReadsOtherwise(m: seq<byte>, ptr: int)
    ensures ReadBytes(m, ptr) == Ok([]) <==> ptr == 0 || (0 < ptr && ptr + 4 <= |m| && m[ptr..ptr + 4] == [0, 0, 0, 0])
    ensures ReadBytes(m, ptr) == Err(RangeError) <==> ptr < 0 || (ptr > 0 && ptr + 4 > |m|)
    ensures ReadBytes(m, ptr) == Err(InvalidLength) <==>
            ptr > 0 && ptr + 4 <= |m| && U32At(m, ptr) > 0 && U32At(m, ptr) > |m| - (ptr + 4)
    ensures ReadBytes(m, ptr).Err? ==> ReadBytes(m, ptr).error in {RangeError, InvalidLength}
  {
    if ptr > 0 && ptr + 4 <= |m| {
      PrefixIs(m, ptr, 0);
      LowByteFirst(0);
    }
    hide LE32, U32At;
  }

  /** A boxed value reads as the string behind its second word, unless it is null or tagged so. */
  lemma ReadAnyMeaning(m: seq<byte>, ptr: int)
    ensures ptr == 0 ==> ReadAny(m, ptr) == Ok([])
    ensures ptr > 0 && ptr + 8 <= |m| ==>
              ReadAny(m, ptr) == if m[ptr..ptr + 4] == [0, 0, 0, 0] then Ok([]) else ReadBytes(m, U32At(m, ptr + 4))
    ensures ptr < 0 || (ptr > 0 && ptr + 4 > |m|) ==> ReadAny(m, ptr) == Err(RangeError)
    ensures ptr > 0 && ptr + 4 <= |m| < ptr + 8 ==>
              ReadAny(m, ptr) == if m[ptr..ptr + 4] == [0, 0, 0, 0] then Ok([]) else Err(RangeError)
  {
    if ptr > 0 && ptr + 4 <= |m| {
      PrefixIs(m, ptr, 0);
      LowByteFirst(0);
    }
    hide LE32, U32At, ReadBytes;
  }

  // ---------------------------------------------------------------------
  // Allocating and writing
  // ---------------------------------------------------------------------

  /** mem_alloc hands out what malloc gave, covered by the bump pointer and apart from every block; otherwise it answers 0. */
  lemma AllocOutcome(w: World, size: int, r: Reply)
    requires Inv(w) && Honest(w.heap, r) && Fits(r.ptr, size)
    ensures var o := MemAlloc(w, size, r);
            && (o.result == Ok(r.ptr) || o.result == Ok(0))
            && (o.result == Ok(0) <==> size <= 0 || r.ptr == 0)
            && (size <= 0 ==> o.world == w)
            && (size > 0 ==> o.world.heap.mem == r.mem)
            && (size > 0 && r.ptr == 0 ==> o.world == World(Heap(r.mem, r.hp), w.blocks))
            && (size > 0 && r.ptr != 0 ==>
                  && o.world.blocks == w.blocks + [Block(r.ptr, size, None)] && o.world.heap.hp >= r.ptr + size
                  && forall i :: 0 <= i < |w.blocks| ==> Apart(w.blocks[i], Block(r.ptr, size, None)))
  {
    if size > 0 && r.ptr != 0 {
      BumpCoversExactly(r.hp, r.ptr, size);
      assert forall i :: 0 <= i < |w.blocks| ==> Live(w.heap, w.blocks[i]);
    }
    hide Bump;
  }

  /** What a write answers in each case. */
  lemma WriteAnswer(w: World, data: seq<byte>, r: Reply)
    ensures WriteBytes(w, data, r).result ==
            if r.ptr == 0 then Err(NullPointer) else if r.ptr + 4 + |data| > |r.mem| then Err(OutOfBounds) else Ok(r.ptr)
  {
  }

  /** The four bytes of a prefix are within the memory; null needs none. */
  predicate HasPrefix(m: seq<byte>, ptr: int) {
    ptr == 0 || (0 < ptr && ptr + 4 <= |m|)
  }

  predicate EmptyAt(m: seq<byte>, ptr: int)
    requires HasPrefix(m, ptr)
  {
    ptr == 0 || m[ptr..ptr + 4] == [0, 0, 0, 0]
  }

  lemma PrefixAnswer(m: seq<byte>, ptr: int)
    ensures HasPrefix(m, ptr) ==> PrefixAt(m, ptr).Ok? && (PrefixAt(m, ptr) == Ok(0) <==> EmptyAt(m, ptr))
    ensures !HasPrefix(m, ptr) ==> PrefixAt(m, ptr) == Err(RangeError)
  {
    if 0 < ptr && ptr + 4 <= |m| {
      PrefixIs(m, ptr, 0);
      LowByteFirst(0);
    }
    hide LE32, U32At;
  }

  /**
   What a concatenation answers in each case; malloc is not called before both
   prefixes were read, nor for two empty strings.
  */
  lemma ConcatAnswer(w: World, a: int, b: int, r: Reply)
    ensures var o, m := Concat(w, a, b, r), w.heap.mem;
            && (!HasPrefix(m, a) || !HasPrefix(m, b) ==> o == Outcome(w, Err(RangeError)))
            && (HasPrefix(m, a) && HasPrefix(m, b) ==>
                  if EmptyAt(m, a) && EmptyAt(m, b) then o == Outcome(w, Ok(0))
                  else if r.ptr == 0 then o == Outcome(World(Heap(r.mem, r.hp), w.blocks), Err(NullPointer))
                  else if r.ptr + 4 > |r.mem| then o == Outcome(World(Heap(r.mem, r.hp), w.blocks), Err(RangeError))
                  else o.result == Ok(r.ptr))
  {
    PrefixAnswer(w.heap.mem, a);
    PrefixAnswer(w.heap.mem, b);
    hide PrefixAt, EmptyAt, HasPrefix, JoinInto, HandOut;
  }

  lemma FirstWords(m: seq<byte>, p: nat, words: seq<nat>)
    requires |words| >= 3 && (forall k :: 0 <= k < 4 && k < |words| ==> words[k] < TWO_TO_32)
    requires p + 4 * |words| <= |m| && m[p..p + 4 * |words|] == Flat(words)
    ensures U32At(m, p) == words[0] && U32At(m, p + 4) == words[1] && U32At(m, p + 8) == words[2]
    ensures |words| >= 4 ==> U32At(m, p + 12) == words[3]
  {
    hide U32At, Flat;
    WordReads(m, p, words, 0);
    WordReads(m, p, words, 1);
    WordReads(m, p, words, 2);
    if |words| >= 4 {
      WordReads(m, p, words, 3);
    }
  }

  /** What a boxed string answers in each case: one is made exactly when both of its blocks fit. */
  lemma BoxAnswer(w: World, data: seq<byte>, r1: Reply, r2: Reply)
    ensures BoxString(w, data, r1, r2).result ==
            if r1.ptr == 0 then Err(NullPointer) else if r1.ptr + 4 + |data| > |r1.mem| then Err(OutOfBounds)
            else if r2.ptr == 0 then Err(NullPointer) else if r2.ptr + 12 > |r2.mem| then Err(RangeError) else Ok(r2.ptr)
  {
  }

  lemma BoxStores(w: World, data: seq<byte>, r1: Reply, r2: Reply)
    requires Inv(w) && Possible(w, Box(data, r1, r2)) && BoxString(w, data, r1, r2).result.Ok?
    ensures var m, words := BoxString(w, data, r1, r2).world.heap.mem, [ANY_TAG_STRING, r1.ptr, 0];
            r1.ptr < TWO_TO_31 && r2.ptr + 4 * |words| <= |m| && m[r2.ptr..r2.ptr + 4 * |words|] == Flat(words)
  {
    BoxAnswer(w, data, r1, r2);
    WriteHolds(w, data, r1);
    WriteKeeps(w, data, r1);
    hide WriteBytes, LE32, ReadBytes, StoreBlock, Inv, Flat;
    StoreBlockHolds(WriteBytes(w, data, r1).world, [ANY_TAG_STRING, r1.ptr, 0], r2);
  }

  /** It is laid out as tag 4, the string's pointer and a zero, and reads back both ways. */
  lemma BoxLayout(w: World, data: seq<byte>, r1: Reply, r2: Reply)
    requires Inv(w) && Possible(w, Box(data, r1, r2)) && BoxString(w, data, r1, r2).result.Ok?
    ensures var m := BoxString(w, data, r1, r2).world.heap.mem;
            && r2.ptr + 12 <= |m| && U32At(m, r2.ptr) == 4 && U32At(m, r2.ptr + 4) == r1.ptr && U32At(m, r2.ptr + 8) == 0
            && ReadBytes(m, r1.ptr) == Ok(data) && ReadAny(m, r2.ptr) == Ok(data)
  {
    BoxAnswer(w, data, r1, r2);
    BoxReadsBack(w, data, r1, r2);
    BoxStores(w, data, r1, r2);
    var o := BoxString(w, data, r1, r2);
    assert o.result.value == r2.ptr;
    hide BoxString, U32At, ReadBytes, Inv, Flat;
    FirstWords(o.world.heap.mem, r2.ptr, [ANY_TAG_STRING, r1.ptr, 0]);
  }

  /** Every element can be written: malloc answers with a block that fits. */
  ghost predicate AllFit(parts: seq<seq<byte>>, rs: seq<Reply>)
    requires |rs| == |parts|
  {
    forall i :: 0 <= i < |parts| ==> rs[i].ptr != 0 && rs[i].ptr + 4 + |parts[i]| <= |rs[i].mem|
  }

  /** The i-th element is the first that cannot be written, and this is why. */
  ghost predicate FirstMisfit(parts: seq<seq<byte>>, rs: seq<Reply>, i: nat, e: Error)
    requires |rs| == |parts|
  {
    && i < |parts| && AllFit(parts[..i], rs[..i])
    && (rs[i].ptr == 0 || rs[i].ptr + 4 + |parts[i]| > |rs[i].mem|)
    && e == if rs[i].ptr == 0 then NullPointer else OutOfBounds
  }

  lemma AllFitSplits(parts: seq<seq<byte>>, rs: seq<Reply>)
    requires |rs| == |parts| && parts != []
    ensures AllFit(parts, rs) <==> rs[0].ptr != 0 && rs[0].ptr + 4 + |parts[0]| <= |rs[0].mem| && AllFit(parts[1..], rs[1..])
  {
    assert forall i :: 0 < i < |parts| ==> parts[i] == parts[1..][i - 1] && rs[i] == rs[1..][i - 1];
    assert forall i :: 0 <= i < |parts[1..]| ==> parts[1..][i] == parts[i + 1] && rs[1..][i] == rs[i + 1];
  }

  lemma FirstIsMisfit(parts: seq<seq<byte>>, rs: seq<Reply>, e: Error)
    requires |rs| == |parts| && parts != []
    requires rs[0].ptr == 0 || rs[0].ptr + 4 + |parts[0]| > |rs[0].mem|
    requires e == if rs[0].ptr == 0 then NullPointer else OutOfBounds
    ensures FirstMisfit(parts, rs, 0, e)
  {
  }

  lemma LaterMisfit(parts: seq<seq<byte>>, rs: seq<Reply>, i: nat, e: Error)
    requires |rs| == |parts| && parts != []
    requires rs[0].ptr != 0 && rs[0].ptr + 4 + |parts[0]| <= |rs[0].mem| && FirstMisfit(parts[1..], rs[1..], i, e)
    ensures FirstMisfit(parts, rs, i + 1, e)
  {
    assert parts[..i + 1][1..] == parts[1..][..i] && rs[..i + 1][1..] == rs[1..][..i];
    AllFitSplits(parts[..i + 1], rs[..i + 1]);
  }

  lemma {:induction false} WriteAllOutcome(w: World, parts: seq<seq<byte>>, rs: seq<Reply>)
    requires |rs| == |parts|
    ensures var o := WriteAll(w, parts, rs);
            && (o.result.Ok? <==> AllFit(parts, rs))
            && (o.result.Err? ==> exists i :: FirstMisfit(parts, rs, i, o.result.error))
            && (o.result.Ok? ==> |o.result.value| == |parts| && forall i :: 0 <= i < |parts| ==> o.result.value[i] == rs[i].ptr)
    decreases |parts|
  {
    if parts != [] {
      WriteAnswer(w, parts[0], rs[0]);
      hide WriteBytes, AllFit;
      var first := WriteBytes(w, parts[0], rs[0]);
      AllFitSplits(parts, rs);
      if first.result.Err? {
        FirstIsMisfit(parts, rs, first.result.error);
      } else {
        WriteAllOutcome(first.world, parts[1..], rs[1..]);
        var rest := WriteAll(first.world, parts[1..], rs[1..]);
        if rest.result.Err? {
          var i :| FirstMisfit(parts[1..], rs[1..], i, rest.result.error);
          LaterMisfit(parts, rs, i, rest.result.error);
        }
      }
    } else {
      assert AllFit(parts, rs);
    }
  }

  /**
   A split answers with a list exactly when both arguments can be read and every
   block fits; the list's header says its length, its capacity, type 3 and
   zero, and its elements are the parts in order.
  */
  lemma SplitOutcome(w: World, c: Codec, str: int, delim: int, rs: seq<Reply>, r: Reply)
    requires Inv(w) && Possible(w, Split(c, str, delim, rs, r))
    ensures var o, parts := SplitString(w, c, str, delim, rs, r), SplitParts(w, c, str, delim);
            && (parts.Ok? <==> ReadBytes(w.heap.mem, str).Ok? && ReadBytes(w.heap.mem, delim).Ok?)
            && (o.result.Ok? <==>
                  && parts.Ok? && AllFit(parts.value, rs)
                  && r.ptr != 0 && r.ptr + 16 + 4 * |parts.value| <= |r.mem|)
            && (o.result.Ok? ==>
                  && o.result == Ok(r.ptr) && r.ptr + 16 <= |o.world.heap.mem| && |parts.value| < TWO_TO_31
                  && U32At(o.world.heap.mem, r.ptr) == |parts.value| && U32At(o.world.heap.mem, r.ptr + 4) == |parts.value|
                  && U32At(o.world.heap.mem, r.ptr + 8) == 3 && U32At(o.world.heap.mem, r.ptr + 12) == 0
                  && ReadList(o.world.heap.mem, r.ptr) == parts)
  {
    hide WriteAll, StoreBlock, LE32, U32At, ReadBytes, ReadList, EncodedParts;
    var parts := SplitParts(w, c, str, delim);
    if parts.Ok? {
      WriteAllOutcome(w, parts.value, rs);
      WriteAllKeeps(w, parts.value, rs);
      var s := WriteAll(w, parts.value, rs);
      if s.result.Ok? {
        var words := ListWords(s.result.value);
        StoreBlockHolds(s.world, words, r);
        var o := StoreBlock(s.world, words, r);
        if o.result.Ok? {
          FirstWords(o.world.heap.mem, r.ptr, words);
          SplitReadsBack(w, c, str, delim, rs, r);
        }
      }
    }
  }

  /**
   Why a split fails: an argument that cannot be read, with nothing changed,
   else the first element without a block, else the list's block.
  */
  lemma SplitFailures(w: World, c: Codec, str: int, delim: int, rs: seq<Reply>, r: Reply)
    requires SplitParts(w, c, str, delim).Ok? ==> |SplitParts(w, c, str, delim).value| == |rs|
    ensures var o, parts, s, d :=
              SplitString(w, c, str, delim, rs, r), SplitParts(w, c, str, delim),
              ReadBytes(w.heap.mem, str), ReadBytes(w.heap.mem, delim);
            && (s.Err? ==> o == Outcome(w, Err(s.error)))
            && (s.Ok? && d.Err? ==> o == Outcome(w, Err(d.error)))
            && (s.Ok? && d.Ok? ==>
                  && parts.Ok?
                  && (AllFit(parts.value, rs) ==>
                        && (r.ptr == 0 ==> o.result == Err(NullPointer))
                        && (r.ptr != 0 && r.ptr + 16 + 4 * |parts.value| > |r.mem| ==> o.result == Err(RangeError)))
                  && (!AllFit(parts.value, rs) ==>
                        o.result.Err? && exists i :: FirstMisfit(parts.value, rs, i, o.result.error)))
  {
    hide WriteAll, StoreWords, ReadBytes, EncodedParts, AllFit, FirstMisfit;
    var parts := SplitParts(w, c, str, delim);
    if parts.Ok? {
      WriteAllOutcome(w, parts.value, rs);
    }
  }

  /** TextDecoder gives back what TextEncoder was given, and only the empty text has no bytes. */
  predicate Restores(c: Codec, text: seq<Unit>) {
    && (c.encode(text) == [] <==> text == [])
    && (text != [] ==> c.decode(c.encode(text)) == text)
  }

  /** The list holds every part of the split, encoded, in order; what it decodes to joins back to the text. */
  ghost predicate HoldsSplit(c: Codec, list: seq<seq<byte>>, text: seq<Unit>, sep: seq<Unit>) {
    var parts := Text.Split(text, sep);
    && |list| == |parts|
    && (forall i :: 0 <= i < |parts| ==> list[i] == c.encode(parts[i]) && (parts[i] != [] ==> c.decode(list[i]) == parts[i]))
    && Text.Join(parts, sep) == text
  }

  lemma PartsOfTexts(c: Codec, text: seq<Unit>, sep: seq<Unit>)
    requires Restores(c, text) && Restores(c, sep) && forall part :: part in Text.Split(text, sep) ==> Restores(c, part)
    ensures HoldsSplit(c, EncodedParts(c, c.encode(text), c.encode(sep)), text, sep)
  {
    hide Text.Split, Text.Join;
    assert c.Decoded(c.encode(text)) == text && c.Decoded(c.encode(sep)) == sep;
    Text.JoinUndoesSplit(text, sep);
    var parts := Text.Split(text, sep);
    assert forall i :: 0 <= i < |parts| ==> parts[i] in parts;
  }

  /** Splitting a stored text by a stored separator gives a list of exactly its parts. */
  lemma SplitOfTexts(
    w: World, c: Codec, str: int, text: seq<Unit>, delim: int, sep: seq<Unit>, rs: seq<Reply>, r: Reply)
    requires Inv(w) && Possible(w, Split(c, str, delim, rs, r))
    requires ReadBytes(w.heap.mem, str) == Ok(c.encode(text)) && ReadBytes(w.heap.mem, delim) == Ok(c.encode(sep))
    requires Restores(c, text) && Restores(c, sep) && forall part :: part in Text.Split(text, sep) ==> Restores(c, part)
    requires SplitString(w, c, str, delim, rs, r).result.Ok?
    ensures var list := ReadList(SplitString(w, c, str, delim, rs, r).world.heap.mem, r.ptr);
            list.Ok? && HoldsSplit(c, list.value, text, sep)
  {
    hide ReadBytes, WriteAll, StoreBlock, ReadList, EncodedParts, Restores, HoldsSplit, Text.Split;
    PartsOfTexts(c, text, sep);
    SplitOutcome(w, c, str, delim, rs, r);
  }

  // ---------------------------------------------------------------------
  // After any run
  // ---------------------------------------------------------------------

  lemma BoxBlocks(w: World, data: seq<byte>, r1: Reply, r2: Reply)
    requires Inv(w) && Possible(w, Box(data, r1, r2)) && BoxString(w, data, r1, r2).result.Ok?
    ensures r1.ptr < TWO_TO_31 && |data| < TWO_TO_31 && r2.ptr != 0
    ensures BoxString(w, data, r1, r2).world.blocks ==
            w.blocks + [StringBlock(r1.ptr, data), Block(r2.ptr, 12, Some(Flat([ANY_TAG_STRING, r1.ptr, 0])))]
  {
    BoxAnswer(w, data, r1, r2);
    WriteHolds(w, data, r1);
    WriteKeeps(w, data, r1);
    hide WriteBytes, LE32, ReadBytes, StoreBlock, Inv, Flat;
    StoreBlockHolds(WriteBytes(w, data, r1).world, [ANY_TAG_STRING, r1.ptr, 0], r2);
  }

  /** The blocks of the parts, then that of the list naming them. */
  ghost predicate ListBlocks(w: World, t: World, parts: seq<seq<byte>>, ptrs: seq<nat>, list: nat) {
    && |ptrs| == |parts| < TWO_TO_31
    && (forall i :: 0 <= i < |parts| ==> ptrs[i] < TWO_TO_31 && |parts[i]| < TWO_TO_31)
    && t.blocks == w.blocks + seq(|parts|, i requires 0 <= i < |parts| => StringBlock(ptrs[i], parts[i]))
                   + [Block(list, 4 * |ListWords(ptrs)|, Some(Flat(ListWords(ptrs))))]
  }

  lemma SplitBlocks(w: World, c: Codec, str: int, delim: int, rs: seq<Reply>, r: Reply)
    requires Inv(w) && Possible(w, Split(c, str, delim, rs, r)) && SplitString(w, c, str, delim, rs, r).result.Ok?
    ensures exists ptrs ::
              ListBlocks(w, SplitString(w, c, str, delim, rs, r).world, SplitParts(w, c, str, delim).value, ptrs, r.ptr)
  {
    hide WriteAll, StoreBlock, LE32, ReadBytes, EncodedParts, Flat;
    var parts := SplitParts(w, c, str, delim).value;
    WriteAllKeeps(w, parts, rs);
    WriteAllHolds(w, parts, rs);
    var s := WriteAll(w, parts, rs);
    StoreBlockHolds(s.world, ListWords(s.result.value), r);
    assert ListBlocks(w, SplitString(w, c, str, delim, rs, r).world, parts, s.result.value, r.ptr);
  }

  /** A string written by an event reads back after the whole run that follows. */
  lemma WrittenReadsBack(w: World, data: seq<byte>, r: Reply, es: seq<Event>)
    requires Inv(w) && PossibleRun(w, [Write(data, r)] + es)
    requires r.ptr != 0 && r.ptr + 4 + |data| <= |r.mem|
    ensures ReadBytes(Run(w, [Write(data, r)] + es).heap.mem, r.ptr) == Ok(data)
  {
    var all := [Write(data, r)] + es;
    assert all[1..] == es;
    WriteHolds(w, data, r);
    WriteKeeps(w, data, r);
    hide WriteBytes, LE32, ReadBytes;
    var t := Step(w, Write(data, r));
    assert t.blocks[|w.blocks|] == Block(r.ptr, 4 + |data|, Some(LE32(|data|) + data));
    EarlierStringsReadBack(t, es, |w.blocks|, data);
  }

  /** So does the concatenation of two strings. */
  lemma JoinedReadsBack(w: World, a: int, dataA: seq<byte>, b: int, dataB: seq<byte>, r: Reply, es: seq<Event>)
    requires Inv(w) && PossibleRun(w, [Join(a, b, r)] + es)
    requires StringAt(w.heap, a, dataA) && StringAt(w.heap, b, dataB) && dataA + dataB != [] && |dataA + dataB| < TWO_TO_32
    requires r.ptr != 0 && r.ptr + 4 + |dataA| + |dataB| <= |r.mem|
    ensures ReadBytes(Run(w, [Join(a, b, r)] + es).heap.mem, r.ptr) == Ok(dataA + dataB)
  {
    var all := [Join(a, b, r)] + es;
    assert all[1..] == es;
    assert ConcatSize(w.heap.mem, a, b) == 4 + |dataA| + |dataB| by {
      InputStays(w.heap, a, dataA, r);
      InputStays(w.heap, b, dataB, r);
    }
    ConcatReadsBackExactly(w, a, dataA, b, dataB, r);
    ConcatKeeps(w, a, b, r);
    hide Concat, LE32, ReadBytes, ConcatSize;
    var t := Step(w, Join(a, b, r));
    EarlierStringsReadBack(t, es, |w.blocks|, dataA + dataB);
  }

  /** And what malloc gave an allocation is still handed out, apart from all other blocks. */
  lemma AllocatedStays(w: World, size: int, r: Reply, es: seq<Event>)
    requires Inv(w) && PossibleRun(w, [Alloc(size, r)] + es) && size > 0 && r.ptr != 0
    ensures var t, n := Run(w, [Alloc(size, r)] + es), |w.blocks|;
            && n < |t.blocks| && t.blocks[n] == Block(r.ptr, size, None) && r.ptr + size <= t.heap.hp
            && forall j :: 0 <= j < |t.blocks| && j != n ==> Apart(t.blocks[n], t.blocks[j])
  {
    var all := [Alloc(size, r)] + es;
    assert all[1..] == es;
    AllocOutcome(w, size, r);
    hide MemAlloc;
    var t := Step(w, Alloc(size, r));
    StepKeeps(w, Alloc(size, r));
    RunKeeps(t, es);
    assert Run(t, es).blocks[|w.blocks|] == t.blocks[|w.blocks|];
    assert Live(Run(t, es).heap, Run(t, es).blocks[|w.blocks|]);
  }

  /** A boxed string still reads back through the boxed pointer after every run that follows. */
  lemma BoxedReadsBack(w: World, data: seq<byte>, r1: Reply, r2: Reply, es: seq<Event>)
    requires Inv(w) && PossibleRun(w, [Box(data, r1, r2)] + es) && BoxString(w, data, r1, r2).result.Ok?
    ensures ReadAny(Run(w, [Box(data, r1, r2)] + es).heap.mem, r2.ptr) == Ok(data)
  {
    var all := [Box(data, r1, r2)] + es;
    assert all[1..] == es;
    var t, words := Step(w, Box(data, r1, r2)), [ANY_TAG_STRING, r1.ptr, 0];
    BoxBlocks(w, data, r1, r2);
    StepKeeps(w, Box(data, r1, r2));
    RunKeeps(t, es);
    hide BoxString, ReadAny, LE32, Flat;
    var u, n := Run(t, es), |w.blocks|;
    assert u.blocks[n] == t.blocks[n] && u.blocks[n + 1] == t.blocks[n + 1];
    assert Live(u.heap, u.blocks[n + 1]);
    BoxedReads(u, r2.ptr, r1.ptr, n, data);
  }

  lemma ListStays(w: World, t: World, u: World, parts: seq<seq<byte>>, ptrs: seq<nat>, list: nat)
    requires ListBlocks(w, t, parts, ptrs, list) && Grows(t, u)
    ensures ReadList(u.heap.mem, list) == Ok(parts)
  {
    hide Flat, LE32, ReadList;
    var n := |w.blocks|;
    assert forall k :: 0 <= k < |t.blocks| ==> u.blocks[k] == t.blocks[k];
    forall i | 0 <= i < |parts| ensures u.blocks[n + i] == StringBlock(ptrs[i], parts[i]) {
      assert t.blocks[n + i] == StringBlock(ptrs[i], parts[i]);
    }
    assert Live(u.heap, u.blocks[n + |parts|]);
    ListReads(u, list, ptrs, parts, n);
  }

  /** And a list that a split returned still holds the parts then. */
  lemma ListReadsBack(w: World, c: Codec, str: int, delim: int, rs: seq<Reply>, r: Reply, es: seq<Event>)
    requires var e := Split(c, str, delim, rs, r); Inv(w) && Possible(w, e) && PossibleRun(Step(w, e), es)
    requires SplitString(w, c, str, delim, rs, r).result.Ok?
    ensures ReadList(Run(Step(w, Split(c, str, delim, rs, r)), es).heap.mem, r.ptr) == SplitParts(w, c, str, delim)
  {
    var t := Step(w, Split(c, str, delim, rs, r));
    SplitBlocks(w, c, str, delim, rs, r);
    StepKeeps(w, Split(c, str, delim, rs, r));
    RunKeeps(t, es);
    hide SplitString, ReadList, ListBlocks, Inv, SplitParts;
    var parts := SplitParts(w, c, str, delim).value;
    var ptrs: seq<nat> :| ListBlocks(w, t, parts, ptrs, r.ptr);
    ListStays(w, t, Run(t, es), parts, ptrs, r.ptr);
  }

  /** A block that WASM code allocates itself counts as handed out, and is no more overlapped than any other. */
  lemma OwnAllocationStays(w: World, size: nat, r: Reply, es: seq<Event>)
    requires var e := WasmAlloc(size, r); Inv(w) && Possible(w, e) && PossibleRun(Step(w, e), es) && r.ptr != 0
    ensures var t, n := Run(Step(w, WasmAlloc(size, r)), es), |w.blocks|;
            && n < |t.blocks| && t.blocks[n] == Block(r.ptr, size, None) && r.ptr + size <= t.heap.hp
            && forall j :: 0 <= j < |t.blocks| && j != n ==> Apart(t.blocks[n], t.blocks[j])
  {
    var t := Step(w, WasmAlloc(size, r));
    StepKeeps(w, WasmAlloc(size, r));
    RunKeeps(t, es);
    assert Run(t, es).blocks[|w.blocks|] == t.blocks[|w.blocks|];
    assert Live(Run(t, es).heap, Run(t, es).blocks[|w.blocks|]);
  }

  /** A store of WASM code reaches its one byte, whatever block of its own that is in; growth adds zeros at the end. */
  lemma StoresAndGrowth(w: World, e: Event)
    requires Possible(w, e) && (e.WasmStore? || e.GrowMemory?)
    ensures var t := Step(w, e);
            && t.blocks == w.blocks && t.heap.hp == w.heap.hp && |w.heap.mem| <= |t.heap.mem|
            && (forall k :: 0 <= k < |w.heap.mem| && !(e.WasmStore? && k == e.at) ==> t.heap.mem[k] == w.heap.mem[k])
            && (e.WasmStore? ==> |t.heap.mem| == |w.heap.mem| && t.heap.mem[e.at] == e.v)
            && (e.GrowMemory? ==>
                  |t.heap.mem| == |w.heap.mem| + e.extra && forall k :: |w.heap.mem| <= k < |t.heap.mem| ==> t.heap.mem[k] == 0)
  {
  }
}
