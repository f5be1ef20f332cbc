/**
 JavaScript's String.prototype.split, Array.prototype.join and trim, on
 sequences of units of any type. Splitting on the empty separator gives the
 single units, and the empty text has no units.
 */
module Text {
  import opened Wrappers

  predicate OccursAt<T(==)>(s: seq<T>, sep: seq<T>, k: int) {
    0 <= k <= |s| - |sep| && s[k..k + |sep|] == sep
  }

  /** The first position at or after `from` where `sep` occurs in `s`. */
  function Find<T(==)>(s: seq<T>, sep: seq<T>, from: nat): (r: Option<nat>)
    requires from <= |s|
    ensures r.Some? ==> from <= r.value && OccursAt(s, sep, r.value)
    ensures forall k :: from <= k && (r.Some? ==> k < r.value) ==> !OccursAt(s, sep, k)
    decreases |s| - from
  {
    if OccursAt(s, sep, from) then Some(from)
    else if from == |s| then None
    else Find(s, sep, from + 1)
  }

  function Split<T(==)>(s: seq<T>, sep: seq<T>): (parts: seq<seq<T>>)
    ensures sep != [] ==> parts != []
    decreases |s|
  {
    if sep == [] then seq(|s|, i requires 0 <= i < |s| => [s[i]])
    else
      match Find(s, sep, 0)
      case None => [s]
      case Some(k) => [s[..k]] + Split(s[k + |sep|..], sep)
  }

  function Join<T>(parts: seq<seq<T>>, sep: seq<T>): seq<T> {
    if parts == [] then []
    else if |parts| == 1 then parts[0]
    else parts[0] + sep + Join(parts[1..], sep)
  }

  lemma {:induction false} JoinSingletons<T>(s: seq<T>, parts: seq<seq<T>>)
    requires |parts| == |s| && forall i :: 0 <= i < |s| ==> parts[i] == [s[i]]
    ensures Join(parts, []) == s
  {
    if |s| > 1 {
      JoinSingletons(s[1..], parts[1..]);
      assert s == [s[0]] + [] + s[1..];
    }
  }

  /** Joining the parts with the separator restores the text, for every text and separator. */
  lemma {:induction false} JoinUndoesSplit<T>(s: seq<T>, sep: seq<T>)
    ensures Join(Split(s, sep), sep) == s
    decreases |s|
  {
    if sep == [] {
      JoinSingletons(s, Split(s, sep));
    } else {
      var k := Find(s, sep, 0);
      if k.Some? {
        var rest := s[k.value + |sep|..];
        JoinUndoesSplit(rest, sep);
        var parts := Split(s, sep);
        assert parts[1..] == Split(rest, sep);
        assert s == s[..k.value] + s[k.value..k.value + |sep|] + rest;
      }
    }
  }

  lemma OccursInPrefix<T>(s: seq<T>, sep: seq<T>, n: nat, k: int)
    requires n <= |s| && sep != []
    ensures OccursAt(s[..n], sep, k) <==> OccursAt(s, sep, k) && k <= n - |sep|
  {
    assert 0 <= k <= n - |sep| ==> s[..n][k..k + |sep|] == s[k..k + |sep|];
  }

  /** No part contains the separator, so the split is as fine as it can be. */
  lemma {:induction false} PartsAreSeparatorFree<T>(s: seq<T>, sep: seq<T>, part: seq<T>, k: int)
    requires sep != [] && part in Split(s, sep)
    ensures !OccursAt(part, sep, k)
    decreases |s|
  {
    hide Find;
    var cut := Find(s, sep, 0);
    if cut.Some? {
      var head, rest := s[..cut.value], s[cut.value + |sep|..];
      if part != head {
        PartsAreSeparatorFree(rest, sep, part, k);
      } else {
        OccursInPrefix(s, sep, |head|, k);
      }
    }
  }

  function TrimStart<T>(s: seq<T>, isSpace: T -> bool): (r: seq<T>)
    ensures |r| <= |s| && r == s[|s| - |r|..]
    ensures forall i :: 0 <= i < |s| - |r| ==> isSpace(s[i])
    ensures r != [] ==> !isSpace(r[0])
  {
    if s != [] && isSpace(s[0]) then TrimStart(s[1..], isSpace) else s
  }

  function TrimEnd<T>(s: seq<T>, isSpace: T -> bool): (r: seq<T>)
    ensures |r| <= |s| && r == s[..|r|]
    ensures forall i :: |r| <= i < |s| ==> isSpace(s[i])
    ensures r != [] ==> !isSpace(r[|r| - 1])
  {
    if s != [] && isSpace(s[|s| - 1]) then TrimEnd(s[..|s| - 1], isSpace) else s
  }

  function Trim<T>(s: seq<T>, isSpace: T -> bool): seq<T> {
    TrimEnd(TrimStart(s, isSpace), isSpace)
  }

  /** The characters JavaScript's trim and \s treat as white space. */
  predicate IsSpace(c: char) {
    c in {' ', '\t', '\n', '\U{b}', '\U{c}', '\r', '\U{a0}', '\U{1680}', '\U{2028}', '\U{2029}', '\U{202f}', '\U{205f}',
          '\U{3000}', '\U{feff}'} || '\U{2000}' <= c <= '\U{200a}'
  }

  /** The same as code points: tab to carriage return, the space, and the space separators and marks of Unicode. */
  lemma SpaceCodes(c: char)
    ensures IsSpace(c) <==>
            || 9 <= c as int <= 13 || c as int == 32 || c as int == 160 || c as int == 5760 || 8192 <= c as int <= 8202
            || c as int in {8232, 8233, 8239, 8287, 12288, 65279}
  {
  }

  /** How many characters from position i on are, or are not, white space. */
  function Span(s: string, i: nat, space: bool): (n: nat)
    requires i <= |s|
    ensures i + n <= |s|
    ensures forall k :: i <= k < i + n ==> IsSpace(s[k]) == space
    ensures i + n < |s| ==> IsSpace(s[i + n]) != space
    decreases |s| - i
  {
    if i < |s| && IsSpace(s[i]) == space then 1 + Span(s, i + 1, space) else 0
  }

  /** trim() and split(/\s+/) of a text that is not blank: its words in order. */
  function Words(s: string): (r: seq<string>)
    ensures forall w :: w in r ==> w != [] && forall k :: 0 <= k < |w| ==> !IsSpace(w[k])
    decreases |s|
  {
    var lead := Span(s, 0, true);
    if lead == |s| then []
    else
      var len := Span(s, lead, false);
      [s[lead..lead + len]] + Words(s[lead + len..])
  }

  predicate Blank(s: string) {
    forall i :: 0 <= i < |s| ==> IsSpace(s[i])
  }

  predicate Word(s: string) {
    s != "" && forall i :: 0 <= i < |s| ==> !IsSpace(s[i])
  }

  lemma {:induction false} SpanIs(s: string, i: nat, n: nat, space: bool)
    requires i + n <= |s| && forall k :: i <= k < i + n ==> IsSpace(s[k]) == space
    requires i + n < |s| ==> IsSpace(s[i + n]) != space
    ensures Span(s, i, space) == n
    decreases n
  {
    hide IsSpace;
    if n > 0 {
      SpanIs(s, i + 1, n - 1, space);
    }
  }

  lemma WordsOfBlank(s: string)
    requires Blank(s)
    ensures Words(s) == []
  {
    hide IsSpace;
    SpanIs(s, 0, |s|, true);
  }

  /** The words come in order: the first is what stands between the leading white space and the next. */
  lemma WordsUnfold(lead: string, word: string, rest: string)
    requires Blank(lead) && Word(word) && (rest != "" ==> IsSpace(rest[0]))
    ensures Words(lead + word + rest) == [word] + Words(rest)
  {
    hide IsSpace;
    var s := lead + word + rest;
    assert s[|lead|] == word[0];
    SpanIs(s, 0, |lead|, true);
    assert forall k :: 0 <= k < |word| ==> s[|lead| + k] == word[k];
    forall k | |lead| <= k < |lead| + |word| ensures !IsSpace(s[k]) {
      assert s[k] == word[k - |lead|];
    }
    assert rest != "" ==> s[|lead| + |word|] == rest[0];
    SpanIs(s, |lead|, |word|, false);
    assert s[|lead|..|lead| + |word|] == word && s[|lead| + |word|..] == rest;
  }
}
