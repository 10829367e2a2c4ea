/**
 Laws of the statement splitter: it undoes joining, its results are joinable,
 and it rejects exactly the inputs that end inside a quote or block comment.
 */
module SplitterLaws {
  import opened Tables
  import opened Splitter

  function Chars(s: string): (outs: seq<Out>)
    ensures |outs| == |s|
  {
    if s == "" then [] else [Chr(s[0])] + Chars(s[1..])
  }

  /** The lexer passes `s` on rune by rune: balanced quotes, no comment, no bare semicolon. */
  ghost predicate Keeps(mode: Mode, s: string)
  {
    Lex(mode, s) == Some(Chars(s))
  }

  /** A trimmed, non-empty, quote-balanced, comment-free text without a bare semicolon. */
  ghost predicate IsStatement(t: string)
  {
    t != "" && Trim(t) == t && Keeps(Plain, t)
  }

  function Join(statements: seq<string>): string
  {
    if statements == [] then ""
    else if |statements| == 1 then statements[0]
    else statements[0] + ";\n" + Join(statements[1..])
  }

  // ---------- Splitting undoes joining ----------

  /** The mode after the first runes of a kept text, and how many they are. */
  function NextMode(mode: Mode, s: string): (Mode, nat)
    requires s != ""
  {
    match mode
    case Plain => (if IsQuote(s[0]) then Quoted(s[0]) else Plain, 1)
    case Quoted(q) =>
      if (s[0] == '\\' && |s| > 1) || StartsWith(s, q, q) then (mode, 2)
      else if s[0] == q then (Plain, 1)
      else (mode, 1)
    case _ => (mode, 1)
  }

  /** A kept text stays kept after its first runes. */
  lemma KeepsTail(mode: Mode, s: string)
    requires (mode.Plain? || mode.Quoted?) && Keeps(mode, s) && s != ""
    ensures var (next, n) := NextMode(mode, s); n <= |s| && Keeps(next, s[n..]) && (next.Plain? || next.Quoted?)
    ensures mode.Plain? ==> !StartsWith(s, '-', '-') && !StartsWith(s, '/', '*') && s[0] != ';'
    ensures mode.Quoted? ==> s != "\\"
  {
    if mode.Plain? {
      assert Chars(s) == [Chr(s[0])] + Chars(s[1..]);
      assert Chars(s)[0] == Chr(s[0]) && Chars(s)[1..] == Chars(s[1..]);
    } else {
      assert Chars(s)[1..] == Chars(s[1..]);
      if |s| > 1 {
        assert s[1..][1..] == s[2..];
        assert Chars(s)[2..] == Chars(s[2..]) by {
          assert Chars(s)[2..] == Chars(s[1..])[1..];
        }
      }
    }
  }

  /** In front of a semicolon, a kept text is passed on and the lexer goes on in plain mode. */
  lemma {:induction false} LexThrough(mode: Mode, s: string, rest: string)
    requires (mode.Plain? || (mode.Quoted? && IsQuote(mode.quote))) && Keeps(mode, s)
    requires rest != "" && rest[0] == ';'
    ensures Lex(mode, s + rest) == Emit(Chars(s), Lex(Plain, rest))
    decreases |s|
  {
    if s == "" {
      assert s + rest == rest;
      EmitNothing(Lex(Plain, rest));
    } else {
      KeepsTail(mode, s);
      var (next, n) := NextMode(mode, s);
      LexThrough(next, s[n..], rest);
      var all := s + rest;
      assert all[n..] == s[n..] + rest;
      assert all[0] == s[0] && (|s| > 1 ==> all[1] == s[1]) && (|s| == 1 ==> all[1] == ';');
      CharsSplit(s, n);
      EmitJoins(Chars(s[..n]), Chars(s[n..]), Lex(Plain, rest));
      FirstRunes(mode, s, rest);
    }
  }

  lemma {:induction false} CharsSplit(s: string, n: nat)
    requires n <= |s|
    ensures Chars(s) == Chars(s[..n]) + Chars(s[n..])
    decreases n
  {
    if n > 0 {
      CharsSplit(s[1..], n - 1);
      assert s[..n][1..] == s[1..][..n - 1] && s[n..] == s[1..][n - 1..];
    }
  }

  /** The first runes are read alike with and without the text behind. */
  lemma FirstRunes(mode: Mode, s: string, rest: string)
    requires (mode.Plain? || (mode.Quoted? && IsQuote(mode.quote))) && Keeps(mode, s) && s != ""
    requires rest != "" && rest[0] == ';'
    ensures var (next, n) := NextMode(mode, s);
            n <= |s| && Lex(mode, s + rest) == Emit(Chars(s[..n]), Lex(next, (s + rest)[n..]))
  {
    KeepsTail(mode, s);
    var all := s + rest;
    assert all[0] == s[0] && (|s| > 1 ==> all[1] == s[1]) && (|s| == 1 ==> all[1] == ';');
    var (next, n) := NextMode(mode, s);
    if n == 1 {
      assert s[..1][1..] == "" && Chars(s[..1]) == [Chr(s[0])];
    } else {
      assert s[..2][1..][1..] == "" && s[..2][1..][0] == s[1];
      assert Chars(s[..2]) == [Chr(s[0])] + Chars(s[..2][1..]) == [Chr(s[0]), Chr(s[1])];
    }
  }

  lemma {:induction false} SegmentsThrough(s: string, outs: seq<Out>)
    ensures Segments(Chars(s) + [Sep] + outs) == [s] + Segments(outs)
  {
    var all := Chars(s) + [Sep] + outs;
    if s == "" {
      assert all == [Sep] + outs && all[1..] == outs;
    } else {
      assert all[1..] == Chars(s[1..]) + [Sep] + outs && all[0] == Chr(s[0]);
      SegmentsThrough(s[1..], outs);
      assert [s[0]] + s[1..] == s;
    }
  }

  lemma {:induction false} OneSegmentOf(s: string)
    ensures Segments(Chars(s)) == [s]
  {
    if s != "" {
      OneSegmentOf(s[1..]);
      assert [s[0]] + s[1..] == s && Chars(s)[1..] == Chars(s[1..]);
    }
  }

  lemma CleanSkipsSpace(segments: seq<string>, c: char)
    requires segments != [] && IsSpace(c)
    ensures Clean([[c] + segments[0]] + segments[1..]) == Clean(segments)
  {
    assert ([c] + segments[0])[1..] == segments[0];
  }

  /** One statement in front of a semicolon, a line break and more. */
  lemma LexOfPair(t: string, more: string, outs: seq<Out>)
    requires IsStatement(t) && Lex(Plain, more) == Some(outs)
    ensures Lex(Plain, t + ";\n" + more) == Some(Chars(t) + [Sep] + ([Chr('\n')] + outs))
  {
    var tail := ";\n" + more;
    assert t + ";\n" + more == t + tail;
    LexThrough(Plain, t, tail);
    assert tail[1..] == "\n" + more && tail[1..][1..] == more;
    assert Lex(Plain, tail) == Some([Sep] + ([Chr('\n')] + outs));
    assert Chars(t) + ([Sep] + ([Chr('\n')] + outs)) == Chars(t) + [Sep] + ([Chr('\n')] + outs);
  }

  lemma CleanOfPair(t: string, outs: seq<Out>)
    requires t != "" && Trim(t) == t
    ensures Clean(Segments(Chars(t) + [Sep] + ([Chr('\n')] + outs))) == [t] + Clean(Segments(outs))
  {
    var after := [Chr('\n')] + outs;
    SegmentsThrough(t, after);
    assert after[1..] == outs;
    CleanSkipsSpace(Segments(outs), '\n');
    hide Trim;
    assert ([t] + Segments(after))[1..] == Segments(after);
  }

  lemma {:induction false} LexOfJoin(statements: seq<string>) returns (outs: seq<Out>)
    requires statements != [] && forall t | t in statements :: IsStatement(t)
    ensures Lex(Plain, Join(statements)) == Some(outs)
    ensures Clean(Segments(outs)) == statements
  {
    hide Lex, Segments, Trim;
    var t := statements[0];
    assert IsStatement(t);
    if |statements| == 1 {
      outs := Chars(t);
      OneSegmentOf(t);
      assert [t][1..] == [] && statements == [t];
    } else {
      var others := LexOfJoin(statements[1..]);
      LexOfPair(t, Join(statements[1..]), others);
      CleanOfPair(t, others);
      outs := Chars(t) + [Sep] + ([Chr('\n')] + others);
    }
  }

  /** Joined with `;` and a line break, clean statements come back as they were. */
  lemma SplitUndoesJoin(statements: seq<string>)
    requires forall t | t in statements :: IsStatement(t)
    ensures Split(Join(statements)) == Some(statements)
  {
    if statements == [] {
      assert Segments([]) == [""] && Clean([""]) == [];
    } else {
      var outs := LexOfJoin(statements);
    }
  }

  // ---------- Every result is a list of clean statements ----------

  /** The mode in which the first segment of the rest begins. */
  function Within(mode: Mode): Mode
  {
    if mode.Quoted? then mode else Plain
  }

  ghost predicate SegmentsKept(mode: Mode, segments: seq<string>)
  {
    && segments != [] && Keeps(Within(mode), segments[0])
    && forall i | 0 < i < |segments| :: Keeps(Plain, segments[i])
  }

  /** The first rune of the first segment is the first rune of the text, or stands for a comment. */
  lemma FirstRuneOf(s: string, outs: seq<Out>)
    requires Lex(Plain, s) == Some(outs) && Segments(outs)[0] != ""
    ensures s != "" && (Segments(outs)[0][0] == s[0] || Segments(outs)[0][0] == ' ')
  {
  }

  lemma SegmentsOfEmit(out: Out, outs: seq<Out>)
    ensures Segments([out] + outs) == AddFirst(out, Segments(outs))
  {
    assert ([out] + outs)[1..] == outs;
  }

  lemma SegmentsOfTwo(a: char, b: char, outs: seq<Out>)
    ensures Segments([Chr(a), Chr(b)] + outs) == [[a, b] + Segments(outs)[0]] + Segments(outs)[1..]
  {
    assert [Chr(a), Chr(b)] + outs == [Chr(a)] + ([Chr(b)] + outs);
    SegmentsOfEmit(Chr(b), outs);
    SegmentsOfEmit(Chr(a), [Chr(b)] + outs);
    var segments := Segments(outs);
    assert [a] + ([b] + segments[0]) == [a, b] + segments[0];
    assert ([[b] + segments[0]] + segments[1..])[1..] == segments[1..];
  }

  /** A rune may stand before a kept text unless the two open a comment. */
  lemma KeepsRune(c: char, g: string)
    requires Keeps(if IsQuote(c) then Quoted(c) else Plain, g) && c != ';'
    requires g != "" ==> !(c == '-' && g[0] == '-') && !(c == '/' && g[0] == '*')
    ensures Keeps(Plain, [c] + g)
  {
    assert ([c] + g)[1..] == g;
  }

  /** Inside quotes, a rune that is neither the quote nor a backslash. */
  lemma KeepsQuotedRune(q: char, c: char, g: string)
    requires Keeps(Quoted(q), g) && c != q && c != '\\'
    ensures Keeps(Quoted(q), [c] + g)
  {
    assert ([c] + g)[1..] == g;
  }

  lemma KeepsClosingQuote(q: char, g: string)
    requires IsQuote(q) && Keeps(Plain, g) && (g != "" ==> g[0] != q)
    ensures Keeps(Quoted(q), [q] + g)
  {
    assert ([q] + g)[1..] == g;
  }

  /** Inside quotes, a backslash with what it escapes, or a doubled quote. */
  lemma KeepsQuotedPair(q: char, a: char, b: char, g: string)
    requires IsQuote(q) && Keeps(Quoted(q), g) && (a == '\\' || (a == q && b == q))
    ensures Keeps(Quoted(q), [a, b] + g)
  {
    var s := [a, b] + g;
    assert s[2..] == g && s[1..][1..] == g && s[1..][0] == b;
    assert Chars(s) == [Chr(a)] + ([Chr(b)] + Chars(g)) == [Chr(a), Chr(b)] + Chars(g);
  }

  /** Nothing lexes differently once comments are gone and the separators cut. */
  lemma {:induction false} LexKeepsSegments(mode: Mode, s: string, outs: seq<Out>)
    requires Lex(mode, s) == Some(outs) && (mode.Quoted? ==> IsQuote(mode.quote))
    ensures SegmentsKept(mode, Segments(outs))
    decreases |s|
  {
    if s == "" {
    } else {
      match mode
      case Plain => PlainKeepsSegments(s, outs);
      case LineComment =>
        if s[0] == '\n' {
          var rest := Lex(Plain, s[1..]).value;
          LexKeepsSegments(Plain, s[1..], rest);
          SegmentsOfEmit(Chr('\n'), rest);
          KeepsRune('\n', Segments(rest)[0]);
        } else {
          LexKeepsSegments(LineComment, s[1..], outs);
        }
      case BlockComment =>
        if StartsWith(s, '*', '/') {
          LexKeepsSegments(Plain, s[2..], outs);
        } else {
          LexKeepsSegments(BlockComment, s[1..], outs);
        }
      case Quoted(q) => QuotedKeepsSegments(q, s, outs);
    }
  }

  lemma {:induction false} PlainKeepsSegments(s: string, outs: seq<Out>)
    requires Lex(Plain, s) == Some(outs) && s != ""
    ensures SegmentsKept(Plain, Segments(outs))
    decreases |s|, 0
  {
    if StartsWith(s, '-', '-') || StartsWith(s, '/', '*') {
      var comment := if s[0] == '-' then LineComment else BlockComment;
      var rest := Lex(comment, s[2..]).value;
      LexKeepsSegments(comment, s[2..], rest);
      SegmentsOfEmit(Chr(' '), rest);
      KeepsRune(' ', Segments(rest)[0]);
    } else {
      var next := if IsQuote(s[0]) then Quoted(s[0]) else Plain;
      var rest := Lex(next, s[1..]).value;
      LexKeepsSegments(next, s[1..], rest);
      SegmentsOfEmit(if s[0] == ';' then Sep else Chr(s[0]), rest);
      if s[0] != ';' {
        if Segments(rest)[0] != "" && next.Plain? {
          FirstRuneOf(s[1..], rest);
        }
        KeepsRune(s[0], Segments(rest)[0]);
      }
    }
  }

  lemma {:induction false} QuotedKeepsSegments(q: char, s: string, outs: seq<Out>)
    requires Lex(Quoted(q), s) == Some(outs) && IsQuote(q) && s != ""
    ensures SegmentsKept(Quoted(q), Segments(outs))
    decreases |s|, 0
  {
    if s[0] == '\\' || StartsWith(s, q, q) {
      var rest := Lex(Quoted(q), s[2..]).value;
      LexKeepsSegments(Quoted(q), s[2..], rest);
      SegmentsOfTwo(s[0], s[1], rest);
      KeepsQuotedPair(q, s[0], s[1], Segments(rest)[0]);
    } else {
      var next := if s[0] == q then Plain else Quoted(q);
      var rest := Lex(next, s[1..]).value;
      LexKeepsSegments(next, s[1..], rest);
      SegmentsOfEmit(Chr(s[0]), rest);
      if s[0] == q {
        if Segments(rest)[0] != "" {
          FirstRuneOf(s[1..], rest);
        }
        KeepsClosingQuote(q, Segments(rest)[0]);
      } else {
        KeepsQuotedRune(q, s[0], Segments(rest)[0]);
      }
    }
  }

  // ---------- Trimming ----------

  lemma {:induction false} TrimLeftKeeps(g: string)
    requires Keeps(Plain, g)
    ensures Keeps(Plain, TrimLeft(g))
  {
    if g != "" && IsSpace(g[0]) {
      KeepsTail(Plain, g);
      TrimLeftKeeps(g[1..]);
    }
  }

  /** A space at the end of a kept text stands outside quotes and may go. */
  lemma {:induction false} LastSpaceGoes(mode: Mode, g: string, w: char)
    requires (mode.Plain? || (mode.Quoted? && IsQuote(mode.quote))) && Keeps(mode, g + [w]) && IsSpace(w)
    ensures Keeps(mode, g)
    decreases |g|
  {
    var s := g + [w];
    KeepsTail(mode, s);
    if g == "" {
      assert s[1..] == "";
    } else {
      var (next, n) := NextMode(mode, s);
      assert s[n..] == g[n..] + [w];
      LastSpaceGoes(next, g[n..], w);
      CharsSplit(g, n);
      FirstRunesAlone(mode, g, w);
    }
  }

  lemma FirstRunesAlone(mode: Mode, g: string, w: char)
    requires (mode.Plain? || (mode.Quoted? && IsQuote(mode.quote))) && Keeps(mode, g + [w]) && IsSpace(w) && g != ""
    ensures var (next, n) := NextMode(mode, g + [w]);
            n <= |g| ==> Lex(mode, g) == Emit(Chars(g[..n]), Lex(next, g[n..]))
  {
    hide Keeps, Lex, Chars, IsSpace;
    var s := g + [w];
    KeepsTail(mode, s);
    assert s[0] == g[0] && (|g| > 1 ==> s[1] == g[1]) && (|g| == 1 ==> s[1] == w);
    var n := NextMode(mode, s).1;
    if n == 1 {
      OneRune(mode, g, w);
    } else if n <= |g| {
      TwoRunes(mode, g);
    }
  }

  lemma TwoRunes(mode: Mode, g: string)
    requires mode.Quoted? && IsQuote(mode.quote) && |g| > 1 && (g[0] == '\\' || StartsWith(g, mode.quote, mode.quote))
    ensures Lex(mode, g) == Emit(Chars(g[..2]), Lex(mode, g[2..]))
  {
    assert g[..2][1..][1..] == "" && g[..2][1..][0] == g[1];
    assert Chars(g[..2]) == [Chr(g[0])] + Chars(g[..2][1..]) == [Chr(g[0]), Chr(g[1])];
  }

  lemma OneRune(mode: Mode, g: string, w: char)
    requires (mode.Plain? || (mode.Quoted? && IsQuote(mode.quote))) && g != ""
    requires NextMode(mode, g + [w]).1 == 1
    requires mode.Plain? ==> !StartsWith(g, '-', '-') && !StartsWith(g, '/', '*') && g[0] != ';'
    ensures Lex(mode, g) == Emit(Chars(g[..1]), Lex(NextMode(mode, g + [w]).0, g[1..]))
  {
    assert g[..1][1..] == "" && Chars(g[..1]) == [Chr(g[0])];
    assert (g + [w])[0] == g[0] && (|g| > 1 ==> (g + [w])[1] == g[1]);
  }

  lemma {:induction false} TrimRightKeeps(g: string)
    requires Keeps(Plain, g)
    ensures Keeps(Plain, TrimRight(g))
  {
    if g != "" && IsSpace(g[|g| - 1]) {
      assert g == g[..|g| - 1] + [g[|g| - 1]];
      LastSpaceGoes(Plain, g[..|g| - 1], g[|g| - 1]);
      TrimRightKeeps(g[..|g| - 1]);
    }
  }

  lemma {:induction false} TrimmedLeft(s: string)
    ensures TrimLeft(s) != "" ==> !IsSpace(TrimLeft(s)[0])
  {
    if s != "" && IsSpace(s[0]) {
      TrimmedLeft(s[1..]);
    }
  }

  lemma {:induction false} TrimmedRight(s: string)
    ensures TrimRight(s) <= s
    ensures TrimRight(s) != "" ==> !IsSpace(TrimRight(s)[|TrimRight(s)| - 1])
  {
    if s != "" && IsSpace(s[|s| - 1]) {
      TrimmedRight(s[..|s| - 1]);
    }
  }

  lemma TrimIsIdempotent(s: string)
    ensures Trim(Trim(s)) == Trim(s)
  {
    TrimmedLeft(s);
    TrimmedRight(TrimLeft(s));
    var t := Trim(s);
    if t != "" {
      assert t[0] == TrimLeft(s)[0];
      assert TrimLeft(t) == t && TrimRight(t) == t;
    }
  }

  lemma {:induction false} CleanIsTrimmed(segments: seq<string>, t: string)
    requires t in Clean(segments)
    ensures t != "" && exists g :: g in segments && t == Trim(g)
  {
    if Trim(segments[0]) == "" || t != Trim(segments[0]) {
      CleanIsTrimmed(segments[1..], t);
      var g :| g in segments[1..] && t == Trim(g);
      assert g in segments;
    } else {
      assert segments[0] in segments;
    }
  }

  /** Every statement of a result is trimmed, non-empty, balanced, and free of comments and bare semicolons. */
  lemma ResultsAreStatements(input: string, statements: seq<string>, t: string)
    requires Split(input) == Some(statements) && t in statements
    ensures IsStatement(t)
  {
    var outs := Lex(Plain, input).value;
    LexKeepsSegments(Plain, input, outs);
    CleanIsTrimmed(Segments(outs), t);
    var g :| g in Segments(outs) && t == Trim(g);
    assert Keeps(Plain, g);
    TrimLeftKeeps(g);
    TrimRightKeeps(TrimLeft(g));
    TrimIsIdempotent(g);
  }

  /** Splitting again what was split and joined changes nothing. */
  lemma SplitJoinSplit(input: string)
    ensures Split(input).Some? ==> Split(Join(Split(input).value)) == Split(input)
  {
    if Split(input).Some? {
      forall t | t in Split(input).value
        ensures IsStatement(t)
      {
        ResultsAreStatements(input, Split(input).value, t);
      }
      SplitUndoesJoin(Split(input).value);
    }
  }

  // ---------- Rejected inputs ----------

  /** The mode the text ends in. */
  function EndMode(mode: Mode, s: string): Mode
    decreases |s|
  {
    if s == "" then mode
    else match mode
      case Plain =>
        if StartsWith(s, '-', '-') then EndMode(LineComment, s[2..])
        else if StartsWith(s, '/', '*') then EndMode(BlockComment, s[2..])
        else EndMode(if IsQuote(s[0]) then Quoted(s[0]) else Plain, s[1..])
      case LineComment => EndMode(if s[0] == '\n' then Plain else LineComment, s[1..])
      case BlockComment => if StartsWith(s, '*', '/') then EndMode(Plain, s[2..]) else EndMode(BlockComment, s[1..])
      case Quoted(q) =>
        if |s| > 1 && (s[0] == '\\' || StartsWith(s, q, q)) then EndMode(mode, s[2..])
        else EndMode(if s[0] == q && q != '\\' then Plain else mode, s[1..])
  }

  lemma {:induction false} LexFailsWhenOpen(mode: Mode, s: string)
    requires mode.Quoted? ==> IsQuote(mode.quote)
    ensures Lex(mode, s).None? <==> EndMode(mode, s).Quoted? || EndMode(mode, s).BlockComment?
    decreases |s|
  {
    if s != "" {
      match mode
      case Plain =>
        if StartsWith(s, '-', '-') {
          LexFailsWhenOpen(LineComment, s[2..]);
        } else if StartsWith(s, '/', '*') {
          LexFailsWhenOpen(BlockComment, s[2..]);
        } else {
          LexFailsWhenOpen(if IsQuote(s[0]) then Quoted(s[0]) else Plain, s[1..]);
        }
      case LineComment => LexFailsWhenOpen(if s[0] == '\n' then Plain else LineComment, s[1..]);
      case BlockComment =>
        if StartsWith(s, '*', '/') {
          LexFailsWhenOpen(Plain, s[2..]);
        } else {
          LexFailsWhenOpen(BlockComment, s[1..]);
        }
      case Quoted(q) =>
        if s != "\\" {
          if s[0] == '\\' || StartsWith(s, q, q) {
            LexFailsWhenOpen(mode, s[2..]);
          } else {
            LexFailsWhenOpen(if s[0] == q then Plain else mode, s[1..]);
          }
        }
    }
  }

  /** Splitting fails just when the input ends inside a quote or a block comment. */
  lemma SplitFailsWhenOpen(input: string)
    ensures Split(input).None? <==> EndMode(Plain, input).Quoted? || EndMode(Plain, input).BlockComment?
  {
    LexFailsWhenOpen(Plain, input);
  }

  // ---------- What quotes protect ----------

  /** One unit inside quotes `q`: a rune that is neither the quote nor a backslash, a doubled quote, or a backslash and any rune. */
  predicate IsUnit(q: char, unit: string)
  {
    || (|unit| == 1 && unit[0] != q && unit[0] != '\\')
    || unit == [q, q]
    || (|unit| == 2 && unit[0] == '\\')
  }

  function Concat(units: seq<string>): string
  {
    if units == [] then "" else units[0] + Concat(units[1..])
  }

  /** Quoted text is kept as it is, with all semicolons and comment marks in it, up to the closing quote and no further. */
  lemma QuotesProtect(q: char, units: seq<string>, rest: string)
    requires q in {'\'', '"', '`'} && (forall unit | unit in units :: IsUnit(q, unit)) && (rest == "" || rest[0] != q)
    ensures Lex(Plain, [q] + Concat(units) + [q] + rest) == Emit(Chars([q] + Concat(units) + [q]), Lex(Plain, rest))
    ensures Lex(Plain, [q] + Concat(units)) == None
  {
    hide Lex, IsUnit, Concat, Chars;
    var body := Concat(units);
    QuotedToTheEnd(q, units, rest);
    QuoteOpens(q, body + [q] + rest);
    QuoteOpens(q, body);
    EmitJoins([Chr(q)], Chars(body + [q]), Lex(Plain, rest));
    assert [q] + body + [q] + rest == [q] + (body + [q] + rest);
    assert [q] + body + [q] == [q] + (body + [q]);
    CharsCons(q, body + [q]);
  }

  lemma CharsCons(c: char, s: string)
    ensures Chars([c] + s) == [Chr(c)] + Chars(s)
  {
    assert ([c] + s)[1..] == s;
  }

  lemma QuoteOpens(q: char, s: string)
    requires q in {'\'', '"', '`'}
    ensures Lex(Plain, [q] + s) == Emit([Chr(q)], Lex(Quoted(q), s))
  {
    assert ([q] + s)[1..] == s;
  }

  lemma QuoteCloses(q: char, rest: string)
    requires q in {'\'', '"', '`'} && (rest == "" || rest[0] != q)
    ensures Lex(Quoted(q), [q] + rest) == Emit(Chars([q]), Lex(Plain, rest))
  {
    var s := [q] + rest;
    assert s[0] == q && s[1..] == rest && !StartsWith(s, q, q) && s != "\\";
    assert [q][1..] == "" && Chars([q]) == [Chr(q)];
  }

  lemma {:induction false} QuotedToTheEnd(q: char, units: seq<string>, rest: string)
    requires q in {'\'', '"', '`'} && (forall unit | unit in units :: IsUnit(q, unit)) && (rest == "" || rest[0] != q)
    ensures Lex(Quoted(q), Concat(units) + [q] + rest) == Emit(Chars(Concat(units) + [q]), Lex(Plain, rest))
    ensures Lex(Quoted(q), Concat(units)) == None
  {
    assert Lex(Quoted(q), "") == None;
    hide Lex, IsUnit, Chars;
    if units == [] {
      QuoteCloses(q, rest);
      assert Concat(units) + [q] + rest == [q] + rest && Concat(units) + [q] == [q];
    } else {
      QuotedToTheEnd(q, units[1..], rest);
      QuotedStep(q, units[0], Concat(units[1..]), rest);
      assert Concat(units) == units[0] + Concat(units[1..]);
    }
  }

  lemma QuotedStep(q: char, unit: string, body: string, rest: string)
    requires q in {'\'', '"', '`'} && IsUnit(q, unit)
    requires Lex(Quoted(q), body + [q] + rest) == Emit(Chars(body + [q]), Lex(Plain, rest)) && Lex(Quoted(q), body) == None
    ensures Lex(Quoted(q), unit + body + [q] + rest) == Emit(Chars(unit + body + [q]), Lex(Plain, rest))
    ensures Lex(Quoted(q), unit + body) == None
  {
    hide Lex, IsUnit, Chars;
    var end := body + [q];
    UnitIsKept(q, unit, end + rest);
    UnitIsKept(q, unit, body);
    CharsSplit(unit + end, |unit|);
    EmitJoins(Chars(unit), Chars(end), Lex(Plain, rest));
    assert unit + body + [q] + rest == unit + (end + rest);
    assert unit + body + [q] == unit + end;
    assert (unit + end)[..|unit|] == unit && (unit + end)[|unit|..] == end;
  }

  lemma UnitIsKept(q: char, unit: string, more: string)
    requires q in {'\'', '"', '`'} && IsUnit(q, unit)
    ensures Lex(Quoted(q), unit + more) == Emit(Chars(unit), Lex(Quoted(q), more))
  {
    var all := unit + more;
    assert all[|unit|..] == more;
    if |unit| == 1 {
      assert unit[1..] == "" && Chars(unit) == [Chr(unit[0])];
    } else {
      assert unit[1..][1..] == "" && Chars(unit) == [Chr(unit[0])] + Chars(unit[1..]) == [Chr(unit[0]), Chr(unit[1])];
    }
  }

  /** Outside of quotes and comments a semicolon ends a statement, and any other rune is kept. */
  lemma PlainRunes(c: char, rest: string)
    ensures Lex(Plain, ";" + rest) == Emit([Sep], Lex(Plain, rest))
    ensures c !in {';', '\'', '"', '`'} && !(c == '-' && rest != "" && rest[0] == '-') && !(c == '/' && rest != "" && rest[0] == '*') ==>
              Lex(Plain, [c] + rest) == Emit([Chr(c)], Lex(Plain, rest))
  {
    assert (";" + rest)[1..] == rest && ([c] + rest)[1..] == rest;
  }

  // ---------- What becomes of comments ----------

  /** A comment to the end of its line reads like one blank, whatever stands in it. */
  lemma LineCommentIsBlank(body: string, rest: string)
    requires '\n' !in body
    ensures Lex(Plain, "--" + body + "\n" + rest) == Lex(Plain, " \n" + rest)
    ensures Lex(Plain, "--" + body) == Lex(Plain, " ")
  {
    var all, open := "--" + body + "\n" + rest, "--" + body;
    assert all[2..] == body + "\n" + rest && open[2..] == body;
    LineCommentEnds(body, rest);
    assert (" \n" + rest)[1..] == "\n" + rest && ("\n" + rest)[1..] == rest;
    assert " "[1..] == "";
  }

  lemma {:induction false} LineCommentEnds(body: string, rest: string)
    requires '\n' !in body
    ensures Lex(LineComment, body + "\n" + rest) == Emit([Chr('\n')], Lex(Plain, rest))
    ensures Lex(LineComment, body) == Some([])
  {
    var all := body + "\n" + rest;
    if body == "" {
      assert all[1..] == rest;
    } else {
      assert all[1..] == body[1..] + "\n" + rest;
      LineCommentEnds(body[1..], rest);
    }
  }

  /** So does one between marks, which ends at the first closing mark. */
  lemma BlockCommentIsBlank(body: string, rest: string)
    requires forall i | 0 <= i < |body| - 1 :: !(body[i] == '*' && body[i + 1] == '/')
    ensures Lex(Plain, "/*" + body + "*/" + rest) == Lex(Plain, " " + rest)
    ensures Lex(Plain, "/*" + body) == None
  {
    var all, open := "/*" + body + "*/" + rest, "/*" + body;
    assert all[2..] == body + "*/" + rest && open[2..] == body;
    BlockCommentEnds(body, rest);
    assert (" " + rest)[1..] == rest;
  }

  lemma {:induction false} BlockCommentEnds(body: string, rest: string)
    requires forall i | 0 <= i < |body| - 1 :: !(body[i] == '*' && body[i + 1] == '/')
    ensures Lex(BlockComment, body + "*/" + rest) == Lex(Plain, rest)
    ensures Lex(BlockComment, body) == None
  {
    var all := body + "*/" + rest;
    if body == "" {
      assert all[2..] == rest;
    } else {
      assert all[1..] == body[1..] + "*/" + rest;
      forall i | 0 <= i < |body[1..]| - 1
        ensures !(body[1..][i] == '*' && body[1..][i + 1] == '/')
      {
        assert body[i + 1] == body[1..][i] && body[i + 1 + 1] == body[1..][i + 1];
      }
      BlockCommentEnds(body[1..], rest);
    }
  }

  /** The text with each comment replaced by a blank; none if a block comment is not closed. */
  function Blanked(mode: Mode, s: string): Option<string>
    decreases |s|
  {
    match mode
    case Plain =>
      if s == "" then Some("")
      else if StartsWith(s, '-', '-') then Before(" ", Blanked(LineComment, s[2..]))
      else if StartsWith(s, '/', '*') then Before(" ", Blanked(BlockComment, s[2..]))
      else Before([s[0]], Blanked(if IsQuote(s[0]) then Quoted(s[0]) else Plain, s[1..]))
    case LineComment =>
      if s == "" then Some("")
      else if s[0] == '\n' then Before("\n", Blanked(Plain, s[1..]))
      else Blanked(LineComment, s[1..])
    case BlockComment =>
      if s == "" then None
      else if StartsWith(s, '*', '/') then Blanked(Plain, s[2..])
      else Blanked(BlockComment, s[1..])
    case Quoted(q) =>
      if s == "" then Some("")
      else if (s[0] == '\\' && |s| > 1) || StartsWith(s, q, q) then Before(s[..2], Blanked(mode, s[2..]))
      else Before([s[0]], Blanked(if s[0] == q then Plain else mode, s[1..]))
  }

  function Before(first: string, rest: Option<string>): Option<string>
  {
    if rest.None? then None else Some(first + rest.value)
  }

  /** What is left begins as the text does, or with a blank or line break. */
  lemma BlankedBegins(mode: Mode, s: string)
    requires mode.Plain? || mode.Quoted?
    ensures var b := Blanked(mode, s);
            b.Some? ==> (b.value == "" <==> s == "") && (s != "" ==> b.value[0] == s[0] || (mode.Plain? && b.value[0] == ' '))
  {
  }

  /** A text reads like the one with blanks in place of its comments. */
  lemma {:induction false} CommentsAreBlanks(mode: Mode, s: string)
    requires mode.Quoted? ==> IsQuote(mode.quote)
    ensures Lex(mode, s) == if Blanked(mode, s).None? then None else Lex(Within(mode), Blanked(mode, s).value)
    decreases |s|
  {
    var b := Blanked(mode, s);
    if s == "" {
    } else {
      match mode
      case Plain =>
        if StartsWith(s, '-', '-') {
          CommentsAreBlanks(LineComment, s[2..]);
        } else if StartsWith(s, '/', '*') {
          CommentsAreBlanks(BlockComment, s[2..]);
        } else {
          var next := if IsQuote(s[0]) then Quoted(s[0]) else Plain;
          CommentsAreBlanks(next, s[1..]);
          BlankedBegins(next, s[1..]);
        }
      case LineComment =>
        CommentsAreBlanks(if s[0] == '\n' then Plain else LineComment, s[1..]);
      case BlockComment =>
        if StartsWith(s, '*', '/') {
          CommentsAreBlanks(Plain, s[2..]);
        } else {
          CommentsAreBlanks(BlockComment, s[1..]);
        }
      case Quoted(q) =>
        if (s[0] == '\\' && |s| > 1) || StartsWith(s, q, q) {
          CommentsAreBlanks(mode, s[2..]);
        } else {
          var next := if s[0] == q then Plain else mode;
          CommentsAreBlanks(next, s[1..]);
          BlankedBegins(next, s[1..]);
        }
    }
  }
}
