/**
 The SQL statement splitter of the migration runner: one loop over the runes
 with a quote, two comment flags and an escape flag, against a recursive lexer.
 */
module Splitter {
  import opened Tables

  // ---------- White space ----------

  /** Unicode White_Space. */
  predicate IsSpace(c: char)
  {
    || '\t' <= c <= '\r' || c == ' ' || c == '\U{85}' || c == '\U{A0}' || c == '\U{1680}'
    || '\U{2000}' <= c <= '\U{200A}' || c == '\U{2028}' || c == '\U{2029}' || c == '\U{202F}' || c == '\U{205F}' || c == '\U{3000}'
  }

  /** The twenty-five runes of White_Space, by their codes. */
  lemma SpacesExactly(c: char)
    ensures IsSpace(c) <==>
              c as int in {0x9, 0xA, 0xB, 0xC, 0xD, 0x20, 0x85, 0xA0, 0x1680, 0x2000, 0x2001, 0x2002, 0x2003, 0x2004, 0x2005, 0x2006,
                           0x2007, 0x2008, 0x2009, 0x200A, 0x2028, 0x2029, 0x202F, 0x205F, 0x3000}
  {
  }

  function TrimLeft(s: string): string
  {
    if s != "" && IsSpace(s[0]) then TrimLeft(s[1..]) else s
  }

  function TrimRight(s: string): string
  {
    if s != "" && IsSpace(s[|s| - 1]) then TrimRight(s[..|s| - 1]) else s
  }

  function Trim(s: string): string
  {
    TrimRight(TrimLeft(s))
  }

  // ---------- The recursive lexer ----------

  /** What the lexer emits: a rune of a statement, or the end of one. */
  datatype Out = Chr(c: char) | Sep

  datatype Mode = Plain | LineComment | BlockComment | Quoted(quote: char)

  predicate IsQuote(c: char)
  {
    c == '\'' || c == '"' || c == '`'
  }

  predicate StartsWith(s: string, a: char, b: char)
  {
    |s| >= 2 && s[0] == a && s[1] == b
  }

  /** Reads `s` from the given mode on; none if it ends inside a quote or a block comment. */
  function Lex(mode: Mode, s: string): (r: Option<seq<Out>>)
    decreases |s|
  {
    match mode
    case Plain =>
      if s == "" then Some([])
      else if StartsWith(s, '-', '-') then Emit([Chr(' ')], Lex(LineComment, s[2..]))
      else if StartsWith(s, '/', '*') then Emit([Chr(' ')], Lex(BlockComment, s[2..]))
      else if IsQuote(s[0]) then Emit([Chr(s[0])], Lex(Quoted(s[0]), s[1..]))
      else if s[0] == ';' then Emit([Sep], Lex(Plain, s[1..]))
      else Emit([Chr(s[0])], Lex(Plain, s[1..]))
    case LineComment =>
      if s == "" then Some([])
      else if s[0] == '\n' then Emit([Chr('\n')], Lex(Plain, s[1..]))
      else Lex(LineComment, s[1..])
    case BlockComment =>
      if s == "" then None
      else if StartsWith(s, '*', '/') then Lex(Plain, s[2..])
      else Lex(BlockComment, s[1..])
    case Quoted(q) =>
      if s == "" || s == "\\" then None
      else if s[0] == '\\' then Emit([Chr(s[0]), Chr(s[1])], Lex(mode, s[2..]))
      else if StartsWith(s, q, q) then Emit([Chr(q), Chr(q)], Lex(mode, s[2..]))
      else if s[0] == q then Emit([Chr(q)], Lex(Plain, s[1..]))
      else Emit([Chr(s[0])], Lex(mode, s[1..]))
  }

  function Emit(outs: seq<Out>, rest: Option<seq<Out>>): Option<seq<Out>>
  {
    if rest.None? then None else Some(outs + rest.value)
  }

  /** The runes between separators; there is always a last segment. */
  function Segments(outs: seq<Out>): (segments: seq<string>)
    ensures segments != []
  {
    if outs == [] then [""] else AddFirst(outs[0], Segments(outs[1..]))
  }

  function AddFirst(out: Out, segments: seq<string>): (r: seq<string>)
    requires segments != []
    ensures r != []
  {
    if out.Sep? then [""] + segments else [[out.c] + segments[0]] + segments[1..]
  }

  function AddLast(segments: seq<string>, out: Out): (r: seq<string>)
    requires segments != []
    ensures r != []
  {
    if out.Sep? then segments + [""] else segments[..|segments| - 1] + [segments[|segments| - 1] + [out.c]]
  }

  /** Trimmed segments, without the empty ones. */
  function Clean(segments: seq<string>): seq<string>
  {
    if segments == [] then []
    else if Trim(segments[0]) == "" then Clean(segments[1..])
    else [Trim(segments[0])] + Clean(segments[1..])
  }

  function Split(input: string): Option<seq<string>>
  {
    var outs := Lex(Plain, input);
    if outs.None? then None else Some(Clean(Segments(outs.value)))
  }

  // ---------- The loop ----------

  /** The lexer's mode that the loop's four flags stand for, with the runes still to come. */
  function Rest(quote: Option<char>, lineComment: bool, blockComment: bool, escaped: bool, s: string): Option<seq<Out>>
  {
    if lineComment then Lex(LineComment, s)
    else if blockComment then Lex(BlockComment, s)
    else if quote.None? then Lex(Plain, s)
    else if !escaped then Lex(Quoted(quote.value), s)
    else if s == "" then None
    else Emit([Chr(s[0])], Lex(Quoted(quote.value), s[1..]))
  }

  lemma AddsCommute(first: Out, segments: seq<string>, last: Out)
    requires segments != []
    ensures AddFirst(first, AddLast(segments, last)) == AddLast(AddFirst(first, segments), last)
  {
    var a, b := AddFirst(first, AddLast(segments, last)), AddLast(AddFirst(first, segments), last);
    if first.Chr? && last.Chr? && |segments| == 1 {
      assert [first.c] + (segments[0] + [last.c]) == ([first.c] + segments[0]) + [last.c];
    }
    assert |a| == |b|;
    assert forall i | 0 <= i < |a| :: a[i] == b[i];
  }

  lemma {:induction false} SegmentsAppend(outs: seq<Out>, out: Out)
    ensures Segments(outs + [out]) == AddLast(Segments(outs), out)
  {
    hide AddFirst, AddLast;
    if outs == [] {
      assert outs + [out] == [out] && [out][1..] == [];
      OneSegment(out);
    } else {
      assert (outs + [out])[1..] == outs[1..] + [out] && (outs + [out])[0] == outs[0];
      SegmentsAppend(outs[1..], out);
      AddsCommute(outs[0], Segments(outs[1..]), out);
    }
  }

  lemma OneSegment(out: Out)
    ensures AddFirst(out, [""]) == AddLast([""], out)
  {
    if out.Chr? {
      assert [out.c] + "" == "" + [out.c];
    }
  }

  lemma {:induction false} CleanAppend(segments: seq<string>, segment: string)
    ensures Clean(segments + [segment]) == Clean(segments) + if Trim(segment) == "" then [] else [Trim(segment)]
  {
    if segments == [] {
      assert [segment][1..] == [];
    } else {
      assert (segments + [segment])[1..] == segments[1..] + [segment];
      CleanAppend(segments[1..], segment);
    }
  }

  /** The statements and the unfinished one after the runes emitted so far. */
  ghost predicate Collected(emitted: seq<Out>, statements: seq<string>, current: string)
  {
    var segments := Segments(emitted);
    statements == Clean(segments[..|segments| - 1]) && current == segments[|segments| - 1]
  }

  lemma CollectRune(emitted: seq<Out>, statements: seq<string>, current: string, c: char)
    requires Collected(emitted, statements, current)
    ensures Collected(emitted + [Chr(c)], statements, current + [c])
  {
    SegmentsAppend(emitted, Chr(c));
  }

  lemma CollectSeparator(emitted: seq<Out>, statements: seq<string>, current: string)
    requires Collected(emitted, statements, current)
    ensures Collected(emitted + [Sep], statements + if Trim(current) == "" then [] else [Trim(current)], "")
  {
    var segments := Segments(emitted);
    SegmentsAppend(emitted, Sep);
    CleanAppend(segments[..|segments| - 1], current);
    assert segments == segments[..|segments| - 1] + [current];
    assert (segments + [""])[..|segments|] == segments;
  }

  method TrimSpace(s: string) returns (t: string)
    ensures t == Trim(s)
  {
    var lo := 0;
    while lo < |s| && IsSpace(s[lo])
      invariant 0 <= lo <= |s|
      invariant TrimLeft(s) == TrimLeft(s[lo..])
    {
      assert s[lo..][1..] == s[lo + 1..];
      lo := lo + 1;
    }
    t := TrimEnd(s[lo..]);
  }

  method TrimEnd(s: string) returns (t: string)
    ensures t == TrimRight(s)
  {
    var hi := |s|;
    assert s[..hi] == s;
    while 0 < hi && IsSpace(s[hi - 1])
      invariant 0 <= hi <= |s|
      invariant TrimRight(s) == TrimRight(s[..hi])
    {
      assert s[..hi][..hi - 1] == s[..hi - 1];
      hi := hi - 1;
    }
    t := s[..hi];
  }

  lemma EmitJoins(a: seq<Out>, b: seq<Out>, rest: Option<seq<Out>>)
    ensures Emit(a, Emit(b, rest)) == Emit(a + b, rest)
  {
    if rest.Some? {
      assert a + (b + rest.value) == (a + b) + rest.value;
    }
  }

  /** One round of the loop emits `out` and leaves `rest`. */
  lemma RoundEmits(emitted: seq<Out>, out: seq<Out>, before: Option<seq<Out>>, rest: Option<seq<Out>>)
    requires before == Emit(out, rest)
    ensures Emit(emitted, before) == Emit(emitted + out, rest)
  {
    EmitJoins(emitted, out, rest);
  }

  method SplitStatements(input: string) returns (result: Option<seq<string>>)
    ensures result == Split(input)
  {
    hide Segments, Clean, Trim, Collected, Emit;
    var statements: seq<string> := [];
    var current := "";
    var quote: Option<char> := None;
    var lineComment, blockComment, escaped := false, false, false;
    ghost var emitted: seq<Out> := [];
    var index := 0;
    NothingCollected();
    EmitNothing(Lex(Plain, input));
    assert input[0..] == input;
    while index < |input|
      invariant 0 <= index <= |input|
      invariant lineComment ==> !blockComment && quote.None?
      invariant blockComment ==> quote.None?
      invariant escaped ==> quote.Some?
      invariant quote.Some? ==> IsQuote(quote.value)
      invariant Collected(emitted, statements, current)
      invariant Lex(Plain, input) == Emit(emitted, Rest(quote, lineComment, blockComment, escaped, input[index..]))
    {
      ghost var s := input[index..];
      ghost var before := Rest(quote, lineComment, blockComment, escaped, s);
      ghost var emitted0, out := emitted, [];
      var c := input[index];
      var next := if index + 1 < |input| then Some(input[index + 1]) else None;
      assert s[1..] == input[index + 1..];
      assert next.Some? ==> s[2..] == input[index + 2..] && s[1] == next.value;
      EmitNothing(before);
      if lineComment {
        if c == '\n' {
          lineComment := false;
          CollectRune(emitted, statements, current, c);
          current, out := current + [c], [Chr(c)];
        }
      } else if blockComment {
        if c == '*' && next == Some('/') {
          blockComment := false;
          index := index + 1;
        }
      } else if quote.Some? {
        CollectRune(emitted, statements, current, c);
        current, out := current + [c], [Chr(c)];
        if escaped {
          escaped := false;
        } else if c == '\\' {
          escaped := true;
          EscapeEmits(quote.value, s);
        } else if c == quote.value {
          if next == quote {
            CollectRune(emitted + [Chr(c)], statements, current, c);
            current, out := current + [c], [Chr(c), Chr(c)];
            assert emitted + [Chr(c)] + [Chr(c)] == emitted + [Chr(c), Chr(c)];
            index := index + 1;
          } else {
            quote := None;
          }
        }
      } else if c == '-' && next == Some('-') {
        CollectRune(emitted, statements, current, ' ');
        current, out := current + " ", [Chr(' ')];
        lineComment := true;
        index := index + 1;
      } else if c == '/' && next == Some('*') {
        CollectRune(emitted, statements, current, ' ');
        current, out := current + " ", [Chr(' ')];
        blockComment := true;
        index := index + 1;
      } else if c == '\'' || c == '"' || c == '`' {
        quote := Some(c);
        CollectRune(emitted, statements, current, c);
        current, out := current + [c], [Chr(c)];
      } else if c == ';' {
        CollectSeparator(emitted, statements, current);
        var statement := TrimSpace(current);
        assert statements + [] == statements;
        if statement != "" {
          statements := statements + [statement];
        }
        current, out := "", [Sep];
      } else {
        CollectRune(emitted, statements, current, c);
        current, out := current + [c], [Chr(c)];
      }
      index := index + 1;
      ghost var rest := Rest(quote, lineComment, blockComment, escaped, input[index..]);
      EmitNothing(rest);
      assert before == Emit(out, rest);
      RoundEmits(emitted0, out, before, rest);
      assert emitted0 + [] == emitted0;
      assert Collected(emitted0 + out, statements, current);
      emitted := emitted0 + out;
    }
    assert input[index..] == "";
    EndOfInput(emitted, Rest(quote, lineComment, blockComment, escaped, ""));
    if quote.Some? || blockComment {
      return None;
    }
    var statement := TrimSpace(current);
    FinishStatements(emitted, statements, current);
    assert statements + [] == statements;
    if statement != "" {
      statements := statements + [statement];
    }
    result := Some(statements);
  }

  lemma NothingCollected()
    ensures Collected([], [], "")
  {
  }

  lemma EmitNothing(rest: Option<seq<Out>>)
    ensures Emit([], rest) == rest
  {
    if rest.Some? {
      assert [] + rest.value == rest.value;
    }
  }

  lemma EscapeEmits(q: char, s: string)
    requires s != "" && s[0] == '\\' && IsQuote(q)
    ensures Lex(Quoted(q), s) == Emit([Chr(s[0])], Rest(Some(q), false, false, true, s[1..]))
  {
    if |s| == 1 {
      assert s == "\\";
    } else {
      assert s[1..][0] == s[1] && s[1..][1..] == s[2..];
      EmitJoins([Chr(s[0])], [Chr(s[1])], Lex(Quoted(q), s[2..]));
      assert [Chr(s[0])] + [Chr(s[1])] == [Chr(s[0]), Chr(s[1])];
    }
  }

  lemma EndOfInput(emitted: seq<Out>, rest: Option<seq<Out>>)
    ensures rest == Some([]) ==> Emit(emitted, rest) == Some(emitted)
    ensures rest == None ==> Emit(emitted, rest) == None
  {
    assert emitted + [] == emitted;
  }

  lemma FinishStatements(emitted: seq<Out>, statements: seq<string>, current: string)
    requires Collected(emitted, statements, current)
    ensures Clean(Segments(emitted)) == statements + if Trim(current) == "" then [] else [Trim(current)]
  {
    var segments := Segments(emitted);
    CleanAppend(segments[..|segments| - 1], current);
    assert segments == segments[..|segments| - 1] + [current];
  }
}
