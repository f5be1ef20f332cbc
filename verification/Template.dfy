/** The `{ key }` template renderer: substituteTemplate and getNestedValue. */
module Template {
  import opened Wrappers
  import Text

  /**
   A value as the renderer sees it. `text` is what String() makes of it; `fields`
   holds whatever property access finds.
  */
  datatype Value = Undefined | Null | Scalar(text: string) | Object(fields: map<string, Value>, text: string)

  /** What a value inserts into the page. */
  function Shown(v: Value): string {
    match v
    case Undefined => ""
    case Null => ""
    case Scalar(text) => text
    case Object(_, text) => text
  }

  function Nested(data: Value, parts: seq<string>): Value
    decreases |parts|
  {
    if parts == [] then data
    else if !data.Object? then Undefined
    else Nested(if parts[0] in data.fields then data.fields[parts[0]] else Undefined, parts[1..])
  }

  predicate Alpha(c: char) {
    'A' <= c <= 'Z' || 'a' <= c <= 'z' || c == '_'
  }

  predicate Identifier(s: string) {
    s != [] && Alpha(s[0]) && forall i :: 0 <= i < |s| ==> Alpha(s[i]) || '0' <= s[i] <= '9'
  }

  /** Identifiers joined by dots, which is what the regular expression accepts. */
  predicate IsKey(s: string) {
    forall part :: part in Text.Split(s, ".") ==> Identifier(part)
  }

  function Lookup(data: Value, key: string): string {
    Shown(Nested(data, Text.Split(key, ".")))
  }

  function Trim(s: string): string {
    Text.Trim(s, Text.IsSpace)
  }

  /** A stretch of output, or a key whose value is inserted. */
  datatype Segment = Lit(text: string) | Hole(key: string)

  function Show(p: Segment, data: Value): string {
    match p
    case Lit(text) => text
    case Hole(key) => Lookup(data, key)
  }

  /** The position of the first closing brace after the first character. */
  function Close(s: string): (r: Option<nat>)
    requires s != []
    ensures r.Some? ==> 1 <= r.value < |s|
  {
    Text.Find(s, "}", 1)
  }

  /** Braces around something that is no key stay literal. */
  function Placeholder(key: string, close: nat): (r: (Segment, nat))
    ensures 1 <= r.1 <= close + 1
  {
    if IsKey(key) then (Hole(key), close + 1) else (Lit("{"), 1)
  }

  /** What the renderer makes of the head of the rest of a template, and how much of it that takes. */
  function First(s: string): (r: (Segment, nat))
    requires s != []
    ensures 1 <= r.1 <= |s|
  {
    if s[0] == '{' then
      if |s| > 1 && s[1] == '{' then (Lit("{"), 2)
      else
        match Close(s)
        case None => (Lit(s), |s|)
        case Some(close) => Placeholder(Trim(s[1..close]), close)
    else if s[0] == '}' && |s| > 1 && s[1] == '}' then (Lit("}"), 2)
    else (Lit(s[..1]), 1)
  }

  /** The template taken apart, without looking at the data. */
  function Parse(s: string): seq<Segment>
    decreases |s|
  {
    if s == [] then [] else [First(s).0] + Parse(s[First(s).1..])
  }

  function Eval(ps: seq<Segment>, data: Value): string
    decreases |ps|
  {
    if ps == [] then "" else Show(ps[0], data) + Eval(ps[1..], data)
  }

  /** The page: the inserted values take no part in finding the next placeholder. */
  function Render(s: string, data: Value): string {
    Eval(Parse(s), data)
  }

  // ---------------------------------------------------------------------
  // The loops
  // ---------------------------------------------------------------------

  lemma {:induction false} FindShifts(t: string, sep: string, i: nat, from: nat)
    requires i + from <= |t|
    ensures Text.Find(t, sep, i + from) ==
            match Text.Find(t[i..], sep, from)
            case Some(k) => Some(i + k)
            case None => None
    decreases |t| - i - from
  {
    assert 0 <= from <= |t| - i - |sep| ==> t[i..][from..from + |sep|] == t[i + from..i + from + |sep|];
    if !Text.OccursAt(t, sep, i + from) && i + from < |t| {
      FindShifts(t, sep, i, from + 1);
    }
  }

  /** A path goes one property after the other, in order. */
  lemma {:induction false} NestedPath(data: Value, first: seq<string>, rest: seq<string>)
    ensures Nested(data, first + rest) == Nested(Nested(data, first), rest)
    decreases |first|
  {
    if first == [] {
      assert first + rest == rest;
    } else {
      assert (first + rest)[1..] == first[1..] + rest;
      if data.Object? {
        NestedPath(if first[0] in data.fields then data.fields[first[0]] else Undefined, first[1..], rest);
      } else {
        NestedOfNothing(rest);
      }
    }
  }

  lemma NestedOfNothing(parts: seq<string>)
    ensures Nested(Undefined, parts) == Undefined
  {
  }

  /** One step finds the property of an object; what is no object, or has no such property, gives undefined. */
  lemma NestedProperty(data: Value, key: string)
    ensures Nested(data, [key]) == if data.Object? && key in data.fields then data.fields[key] else Undefined
    ensures Nested(data, []) == data
  {
  }

  method GetNestedValue(data: Value, path: string) returns (r: Value)
    ensures r == Nested(data, Text.Split(path, "."))
  {
    var parts := Text.Split(path, ".");
    var current := data;
    assert parts[0..] == parts;
    for i := 0 to |parts|
      invariant Nested(current, parts[i..]) == Nested(data, parts)
    {
      assert parts[i..][1..] == parts[i + 1..];
      if !current.Object? {
        return Undefined;
      }
      current := if parts[i] in current.fields then current.fields[parts[i]] else Undefined;
    }
    return current;
  }

  lemma CloseAt(t: string, i: nat)
    requires i < |t|
    ensures Text.Find(t, "}", i + 1) == match Close(t[i..]) case Some(k) => Some(i + k) case None => None
  {
    FindShifts(t, "}", i, 1);
  }

  lemma RenderUnfolds(s: string, data: Value)
    requires s != []
    ensures Render(s, data) == Show(First(s).0, data) + Render(s[First(s).1..], data)
  {
    hide First, Show;
    assert Parse(s)[1..] == Parse(s[First(s).1..]);
  }

  /** One round of the loop. */
  lemma Advance(t: string, i: nat, data: Value, result: string)
    requires i < |t|
    ensures var (piece, n) := First(t[i..]);
            result + Render(t[i..], data) == result + Show(piece, data) + Render(t[i + n..], data)
  {
    hide First, Show, Render;
    var s := t[i..];
    var (piece, n) := First(s);
    RenderUnfolds(s, data);
    assert s[n..] == t[i + n..];
    var rest := Render(t[i + n..], data);
    assert result + (Show(piece, data) + rest) == result + Show(piece, data) + rest;
  }

  /** First, in positions of the whole template. */
  lemma FirstAt(t: string, i: nat)
    requires i < |t|
    ensures var double := i + 1 < |t| && t[i + 1] == t[i];
            First(t[i..]) ==
            if t[i] == '{' then
              if double then (Lit("{"), 2)
              else
                match Text.Find(t, "}", i + 1)
                case None => (Lit(t[i..]), |t| - i)
                case Some(close) =>
                  var key := Trim(t[i + 1..close]);
                  if IsKey(key) then (Hole(key), close + 1 - i) else (Lit("{"), 1)
            else if t[i] == '}' && double then (Lit("}"), 2)
            else (Lit([t[i]]), 1)
  {
    hide IsKey, Text.Find, Text.Trim;
    var s := t[i..];
    CloseAt(t, i);
    assert s[..1] == [t[i]];
    if Close(s).Some? {
      assert s[1..Close(s).value] == t[i + 1..i + Close(s).value];
    }
  }

  method SubstituteTemplate(template: string, data: Value) returns (result: string)
    ensures result == Render(template, data)
  {
    hide Render, First, IsKey, Nested, Text.Find, Text.Trim, Text.Split;
    result := "";
    var i := 0;
    assert template[0..] == template && "" + Render(template, data) == Render(template, data);
    while i < |template|
      invariant 0 <= i <= |template| && result + Render(template[i..], data) == Render(template, data)
    {
      FirstAt(template, i);
      Advance(template, i, data, result);
      var ch := template[i];
      if ch == '{' {
        if i + 1 < |template| && template[i + 1] == '{' {
          result := result + "{";
          i := i + 2;
          continue;
        }
        var close := Text.Find(template, "}", i + 1);
        if close.None? {
          result := result + template[i..];
          i := |template|;
          break;
        }
        var key := Trim(template[i + 1..close.value]);
        if !IsKey(key) {
          result := result + [ch];
          i := i + 1;
          continue;
        }
        var value := GetNestedValue(data, key);
        if !value.Undefined? && !value.Null? {
          result := result + value.text;
        }
        i := close.value + 1;
        continue;
      }
      if ch == '}' && i + 1 < |template| && template[i + 1] == '}' {
        result := result + "}";
        i := i + 2;
        continue;
      }
      result := result + [ch];
      i := i + 1;
    }
    RenderEmpty(template[i..], data);
  }

  lemma RenderEmpty(s: string, data: Value)
    requires s == []
    ensures Render(s, data) == []
  {
  }

  // ---------------------------------------------------------------------
  // Printing
  // ---------------------------------------------------------------------

  /** A literal, or a key with white space around it. */
  datatype Printable = Literal(text: string) | Key(before: string, key: string, after: string)

  predicate Printed(p: Printable) {
    p.Key? ==> IsKey(p.key) && Text.Blank(p.before) && Text.Blank(p.after)
  }

  function Escaped(c: char): string {
    if c == '{' || c == '}' then [c, c] else [c]
  }

  /** Braces doubled. */
  function Escape(text: string): string {
    if text == "" then ""
    else Escaped(text[0]) + Escape(text[1..])
  }

  function Print(ps: seq<Printable>): string {
    if ps == [] then ""
    else
      (match ps[0]
       case Literal(text) => Escape(text)
       case Key(before, key, after) => "{" + (before + key + after) + "}") + Print(ps[1..])
  }

  /** The literals and the values looked up, one after the other. */
  function Meaning(ps: seq<Printable>, data: Value): string {
    if ps == [] then ""
    else
      (match ps[0]
       case Literal(text) => text
       case Key(_, key, _) => Lookup(data, key)) + Meaning(ps[1..], data)
  }

  lemma UpperLetters(c: char)
    ensures 'A' <= c <= 'Z' <==> c in "ABCDEFGHIJKLMNOPQRSTUVWXYZ"
  {
  }

  lemma LowerLetters(c: char)
    ensures 'a' <= c <= 'z' <==> c in "abcdefghijklmnopqrstuvwxyz"
  {
  }

  lemma Letters(c: char)
    ensures Alpha(c) <==> c in "ABCDEFGHIJKLMNOPQRSTUVWXYZ" || c in "abcdefghijklmnopqrstuvwxyz" || c == '_'
  {
    UpperLetters(c);
    LowerLetters(c);
  }

  /** Names are made of letters, digits and underscores, and do not begin with a digit. */
  lemma NamesAre(c: char, s: string)
    ensures Identifier([c]) <==> Alpha(c)
    ensures s != "" ==> (Identifier(s + [c]) <==> Identifier(s) && (Alpha(c) || c in "0123456789"))
  {
    hide Alpha;
    if s != "" {
      var more := s + [c];
      assert more[|s|] == c && more[0] == s[0];
      assert forall i :: 0 <= i < |s| ==> more[i] == s[i];
    }
  }

  /** A key is a name, or a name, a dot and a key. */
  lemma KeysAre(name: string, rest: string)
    requires '.' !in name
    ensures IsKey(name) <==> Identifier(name)
    ensures IsKey(name + "." + rest) <==> Identifier(name) && IsKey(rest)
  {
    hide Identifier;
    DotFree(name);
    assert Text.Split(name, ".") == [name];
    var s := name + "." + rest;
    assert s[|name|..|name| + 1] == "." && Text.OccursAt(s, ".", |name|);
    forall k | 0 <= k < |name| ensures !Text.OccursAt(s, ".", k) {
      assert s[k..k + 1][0] == name[k];
    }
    assert Text.Find(s, ".", 0) == Some(|name|);
    assert s[..|name|] == name && s[|name| + 1..] == rest;
    assert Text.Split(s, ".") == [name] + Text.Split(rest, ".");
    assert forall part :: part in [name] + Text.Split(rest, ".") <==> part == name || part in Text.Split(rest, ".");
  }

  lemma DotFree(name: string)
    requires '.' !in name
    ensures Text.Find(name, ".", 0).None?
  {
    forall k | 0 <= k < |name| ensures !Text.OccursAt(name, ".", k) {
      assert name[k..k + 1][0] == name[k];
    }
  }

  lemma {:induction false} KeyChars(s: string, parts: seq<string>, i: nat)
    requires i < |s| && parts == Text.Split(s, ".") && forall part :: part in parts ==> Identifier(part)
    ensures Alpha(s[i]) || '0' <= s[i] <= '9' || s[i] == '.'
    decreases |s|
  {
    var dot := Text.Find(s, ".", 0);
    if dot.None? {
      assert s in parts;
    } else {
      var head, rest := s[..dot.value], s[dot.value + 1..];
      assert head in parts && parts[1..] == Text.Split(rest, ".");
      if i < dot.value {
        assert head[i] == s[i];
      } else if i > dot.value {
        assert rest[i - dot.value - 1] == s[i];
        KeyChars(rest, parts[1..], i - dot.value - 1);
      } else {
        assert s[i..i + 1] == ".";
      }
    }
  }

  /** A key begins and ends with a character that is no white space, and no brace occurs in it. */
  lemma KeyShape(key: string)
    requires IsKey(key)
    ensures key != "" && forall i :: 0 <= i < |key| ==> !Text.IsSpace(key[i]) && key[i] != '{' && key[i] != '}'
  {
    var parts := Text.Split(key, ".");
    assert parts[0] in parts;
    forall i | 0 <= i < |key| ensures !Text.IsSpace(key[i]) && key[i] != '{' && key[i] != '}' {
      KeyChars(key, parts, i);
    }
  }

  lemma TrimPadded(before: string, key: string, after: string)
    requires Text.Blank(before) && Text.Blank(after) && key != ""
    requires !Text.IsSpace(key[0]) && !Text.IsSpace(key[|key| - 1])
    ensures Trim(before + key + after) == key
  {
    var s := before + key + after;
    var start := Text.TrimStart(s, Text.IsSpace);
    assert s[|before|] == key[0];
    assert |s| - |start| <= |before|;
    assert start != [];
    assert start[0] == s[|s| - |start|];
    assert start == key + after;
    var end := Text.TrimEnd(start, Text.IsSpace);
    assert start[|key| - 1] == key[|key| - 1];
    assert |end| >= |key|;
    assert end[|end| - 1] == start[|end| - 1];
  }

  /** The first closing brace after an opening one is the first of the text. */
  lemma CloseIs(inner: string, rest: string)
    requires '}' !in inner
    ensures Close("{" + inner + "}" + rest) == Some(|inner| + 1)
  {
    var s, at := "{" + inner + "}" + rest, |inner| + 1;
    assert s[at..at + 1] == "}";
    assert Text.OccursAt(s, "}", at);
    var close := Close(s);
    assert forall k :: 1 <= k < at ==> s[k] == inner[k - 1] != '}';
    assert s[close.value..close.value + 1][0] == s[close.value];
  }

  lemma FirstOfKey(before: string, key: string, after: string, rest: string)
    requires IsKey(key) && Text.Blank(before) && Text.Blank(after)
    ensures var s := "{" + (before + key + after) + "}" + rest;
            First(s) == (Hole(key), |s| - |rest|) && s[|s| - |rest|..] == rest
  {
    hide IsKey, Close, Trim, Text.Blank;
    var inner := before + key + after;
    var s := "{" + inner + "}" + rest;
    KeyShape(key);
    BlankShape(before);
    BlankShape(after);
    assert '}' !in inner;
    CloseIs(inner, rest);
    TrimPadded(before, key, after);
    assert s[1] == inner[0] && inner[0] in inner;
    assert inner[0] == if before == "" then key[0] else before[0];
    assert s[1..|inner| + 1] == inner;
  }

  lemma BlankShape(s: string)
    requires Text.Blank(s)
    ensures '{' !in s && '}' !in s
  {
  }

  lemma FirstOfEscaped(c: char, rest: string)
    ensures var s, n := Escaped(c) + rest, |Escaped(c)|;
            First(s) == (Lit([c]), n) && s[n..] == rest
  {
    hide Close, Trim, IsKey;
    var s := Escaped(c) + rest;
    assert s[0] == c && |Escaped(c)| == 2 ==> s[1] == c;
    assert s[..1] == [c];
  }

  lemma {:induction false} RenderLiteral(text: string, rest: string, data: Value)
    ensures Render(Escape(text) + rest, data) == text + Render(rest, data)
  {
    hide Render, First, Escaped;
    if text == "" {
      assert Escape(text) + rest == rest && "" + Render(rest, data) == Render(rest, data);
    } else {
      var more := Escape(text[1..]) + rest;
      var s := Escaped(text[0]) + more;
      assert s == Escape(text) + rest;
      FirstOfEscaped(text[0], more);
      RenderUnfolds(s, data);
      RenderLiteral(text[1..], rest, data);
      assert [text[0]] + (text[1..] + Render(rest, data)) == text + Render(rest, data);
    }
  }

  /**
   Rendering undoes printing: for every list of literals and keys, and whatever
   the data holds (braces included), the page is the literals and the looked-up
   values one after the other.
  */
  lemma {:induction false} RenderPrinted(ps: seq<Printable>, data: Value)
    requires forall p :: p in ps ==> Printed(p)
    ensures Render(Print(ps), data) == Meaning(ps, data)
  {
    if ps != [] {
      RenderPrinted(ps[1..], data);
      assert Printed(ps[0]);
      hide Render, First, IsKey, Lookup, Escape;
      var rest := Print(ps[1..]);
      match ps[0]
      case Literal(text) =>
        RenderLiteral(text, rest, data);
      case Key(before, key, after) =>
        FirstOfKey(before, key, after, rest);
        RenderUnfolds("{" + (before + key + after) + "}" + rest, data);
    }
  }

  // ---------------------------------------------------------------------
  // What stays literal
  // ---------------------------------------------------------------------

  /** The text between two braces is a key, with any white space around it. */
  ghost predicate Padded(inner: string) {
    exists before, key, after :: Padding(inner, before, key, after)
  }

  predicate Padding(inner: string, before: string, key: string, after: string) {
    inner == before + key + after && IsKey(key) && Text.Blank(before) && Text.Blank(after)
  }

  lemma StartPads(s: string)
    ensures var start := Text.TrimStart(s, Text.IsSpace);
            var before := s[..|s| - |start|]; s == before + start && Text.Blank(before)
  {
    hide Text.TrimStart, Text.IsSpace;
  }

  lemma EndPads(s: string)
    ensures var end := Text.TrimEnd(s, Text.IsSpace);
            var after := s[|end|..]; s == end + after && Text.Blank(after)
  {
    hide Text.TrimEnd, Text.IsSpace;
    var end := Text.TrimEnd(s, Text.IsSpace);
    forall i | 0 <= i < |s[|end|..]| ensures Text.IsSpace(s[|end|..][i]) {
      assert s[|end|..][i] == s[|end| + i];
    }
  }

  lemma TrimPads(s: string) returns (before: string, after: string)
    ensures s == before + Trim(s) + after && Text.Blank(before) && Text.Blank(after)
  {
    hide Text.TrimStart, Text.TrimEnd, Text.Blank;
    StartPads(s);
    var start := Text.TrimStart(s, Text.IsSpace);
    EndPads(start);
    before, after := s[..|s| - |start|], start[|Trim(s)|..];
    Regroup(before, Trim(s), after);
  }

  lemma Regroup(a: string, b: string, c: string)
    ensures a + (b + c) == a + b + c
  {
  }

  /** A caller can look at the trimmed text instead. */
  lemma PaddedIff(inner: string)
    ensures Padded(inner) <==> IsKey(Trim(inner))
  {
    hide IsKey, Trim, Text.Blank;
    if IsKey(Trim(inner)) {
      var before, after := TrimPads(inner);
      assert Padding(inner, before, Trim(inner), after);
    } else if before, key, after :| Padding(inner, before, key, after) {
      KeyShape(key);
      TrimPadded(before, key, after);
    }
  }

  /** An opening brace that is no escape stays literal if and only if no padded key is closed after it. */
  lemma BraceLiteralIff(inner: string, rest: string)
    requires '}' !in inner && (inner != "" ==> inner[0] != '{')
    ensures First("{" + inner + "}" + rest) == (if Padded(inner) then (Hole(Trim(inner)), |inner| + 2) else (Lit("{"), 1))
    ensures First("{" + inner + "}" + rest).0 == Lit("{") <==> !Padded(inner)
  {
    hide IsKey, Close, Trim, Padded;
    var s := "{" + inner + "}" + rest;
    CloseIs(inner, rest);
    PaddedIff(inner);
    assert s[1] == if inner == "" then '}' else inner[0];
    assert s[1..|inner| + 1] == inner;
  }

  lemma {:induction false} RenderPlain(text: string, rest: string, data: Value)
    requires '{' !in text && '}' !in text
    ensures Render(text + rest, data) == text + Render(rest, data)
  {
    Unescaped(text);
    RenderLiteral(text, rest, data);
  }

  lemma {:induction false} Unescaped(text: string)
    requires '{' !in text && '}' !in text
    ensures Escape(text) == text
  {
    if text != "" {
      assert text[0] in text && forall c :: c in text[1..] ==> c in text;
      Unescaped(text[1..]);
    }
  }

  /** A closing brace that no second one follows. */
  lemma RenderClosing(rest: string, data: Value)
    requires rest != "" ==> rest[0] != '}'
    ensures Render("}" + rest, data) == "}" + Render(rest, data)
  {
    hide Render;
    var s := "}" + rest;
    assert s[..1] == "}" && s[1..] == rest;
    RenderUnfolds(s, data);
  }

  /** A group of braces without others in it is rendered as its key's value, or comes out as it is. */
  lemma RenderGroup(inner: string, rest: string, data: Value)
    requires '{' !in inner && '}' !in inner && (rest != "" ==> rest[0] != '}')
    ensures Render("{" + inner + "}" + rest, data) ==
            (if Padded(inner) then Lookup(data, Trim(inner)) else "{" + inner + "}") + Render(rest, data)
  {
    hide Render, Trim, Padded, First, Lookup;
    var s := "{" + inner + "}" + rest;
    BraceLiteralIff(inner, rest);
    RenderUnfolds(s, data);
    if Padded(inner) {
      assert s[|inner| + 2..] == rest;
    } else {
      assert s[1..] == inner + ("}" + rest);
      RenderPlain(inner, "}" + rest, data);
      RenderClosing(rest, data);
    }
  }

  lemma NothingFound(key: string)
    ensures Lookup(Undefined, key) == ""
  {
  }

  /** Whatever the data: such a group comes out as it is if and only if it is no padded key. */
  lemma GroupLiteralIff(inner: string, rest: string)
    requires '{' !in inner && '}' !in inner && (rest != "" ==> rest[0] != '}')
    ensures (forall data :: Render("{" + inner + "}" + rest, data) == "{" + inner + "}" + Render(rest, data)) <==>
            !Padded(inner)
  {
    hide Render, Padded, Lookup;
    forall data ensures !Padded(inner) ==> Render("{" + inner + "}" + rest, data) == "{" + inner + "}" + Render(rest, data) {
      RenderGroup(inner, rest, data);
    }
    if Padded(inner) {
      RenderGroup(inner, rest, Undefined);
      NothingFound(Trim(inner));
    }
  }

  predicate LineBreak(c: char) {
    c == '\n' || c == '\r'
  }

  predicate HasBreak(s: string) {
    exists i :: 0 <= i < |s| && LineBreak(s[i])
  }

  /**
   The rule that braces with a line break stay literal holds of a group exactly
   when the break is not just padding of a key; inside the text it always holds.
  */
  lemma BreakKeepsLiteralIff(inner: string, rest: string)
    requires '{' !in inner && '}' !in inner && (rest != "" ==> rest[0] != '}') && HasBreak(inner)
    ensures (forall data :: Render("{" + inner + "}" + rest, data) == "{" + inner + "}" + Render(rest, data)) <==>
            !IsKey(Trim(inner))
    ensures HasBreak(Trim(inner)) ==> !IsKey(Trim(inner))
  {
    GroupLiteralIff(inner, rest);
    PaddedIff(inner);
    hide Render, Trim;
    if IsKey(Trim(inner)) {
      KeyShape(Trim(inner));
    }
  }

  /** Line breaks on either side of a key do not keep the braces literal, although the rules above the code say so. */
  lemma NewlineStillSubstituted(before: string, key: string, after: string, rest: string, data: Value)
    requires IsKey(key) && Text.Blank(before) && Text.Blank(after) && (HasBreak(before) || HasBreak(after))
    ensures HasBreak(before + key + after)
    ensures Render("{" + (before + key + after) + "}" + rest, data) == Lookup(data, key) + Render(rest, data)
  {
    hide Render, IsKey, First, Lookup, Text.Blank;
    var inner := before + key + after;
    FirstOfKey(before, key, after, rest);
    RenderUnfolds("{" + inner + "}" + rest, data);
    if i :| 0 <= i < |before| && LineBreak(before[i]) {
      assert LineBreak(inner[i]);
    } else {
      var j :| 0 <= j < |after| && LineBreak(after[j]);
      assert LineBreak(inner[|before + key| + j]);
    }
  }

  /** Empty content, and any other white space alone, stays literal. */
  lemma BlankStaysLiteral(inner: string, rest: string, data: Value)
    requires Text.Blank(inner) && (rest != "" ==> rest[0] != '}')
    ensures Render("{" + inner + "}" + rest, data) == "{" + inner + "}" + Render(rest, data)
  {
    hide Render, Trim, IsKey, Padded, Text.Blank;
    BlankShape(inner);
    PaddedIff(inner);
    RenderGroup(inner, rest, data);
    TrimOfBlank(inner);
    if IsKey(Trim(inner)) {
      KeyShape(Trim(inner));
    }
  }

  lemma TrimOfBlank(s: string)
    ensures Text.Blank(s) ==> Trim(s) == ""
  {
    var start := Text.TrimStart(s, Text.IsSpace);
    if start != "" {
      assert !Text.IsSpace(s[|s| - |start|]);
    }
  }

  /** With another brace in it the outer one stays literal. */
  lemma NestedStaysLiteral(inner: string, rest: string)
    requires '}' !in inner && '{' in inner && inner[0] != '{'
    ensures First("{" + inner + "}" + rest) == (Lit("{"), 1)
  {
    BraceLiteralIff(inner, rest);
    PaddedIff(inner);
    hide First, Trim, Text.Blank;
    if IsKey(Trim(inner)) {
      KeyShape(Trim(inner));
      var before, after := TrimPads(inner);
      BlankShape(before);
      BlankShape(after);
    }
  }

  /** Without any closing brace everything from the opening one on stays as it is. */
  lemma UnterminatedStaysLiteral(text: string, data: Value)
    requires '}' !in text && (text != "" ==> text[0] != '{')
    ensures Render("{" + text, data) == "{" + text
  {
    hide Render, IsKey, Trim;
    var s := "{" + text;
    forall k | 1 <= k < |s| ensures !Text.OccursAt(s, "}", k) {
      assert s[k..k + 1][0] == text[k - 1];
    }
    RenderUnfolds(s, data);
    RenderEmpty(s[|s|..], data);
  }
}
