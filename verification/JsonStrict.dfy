/**
 The strict validator, which drives a token decoder.  The decoder elides commas
 and colons, checks their places with a state per open container, and answers
 whether the current container has more elements by looking one symbol ahead.
 */
module JsonStrict {
  import opened Tables
  import opened Json

  // ---------- The token decoder ----------

  datatype TokenState =
    | TopValue | ArrayStart | ArrayValue | ArrayComma | ObjectStart | ObjectKey | ObjectColon | ObjectValue | ObjectComma

  datatype Token = Delimiter(delimiter: Sym) | String(text: string) | OtherScalar | SyntaxError | EndOfInput

  predicate ValueAllowed(state: TokenState)
  {
    state in {TopValue, ArrayStart, ArrayValue, ObjectValue}
  }

  /** The state after a value. */
  function ValueEnd(state: TokenState): TokenState
  {
    match state
    case ArrayStart => ArrayComma
    case ArrayValue => ArrayComma
    case ObjectValue => ObjectComma
    case _ => state
  }

  predicate IsOpen(state: TokenState)
  {
    state != TopValue
  }

  class Decoder {
    var rest: seq<Sym>
    var state: TokenState
    var stack: seq<TokenState>

    constructor (input: seq<Sym>)
      ensures rest == input && state == TopValue && stack == []
    {
      rest, state, stack := input, TopValue, [];
    }

    /** Inside a container, the states around it are remembered. */
    predicate Valid()
      reads this
    {
      && (IsOpen(state) ==> stack != [])
      && forall i | 0 <= i < |stack| && IsOpen(stack[i]) :: i > 0
    }

    function More(): bool
      reads this
    {
      rest != [] && rest[0] != RBracket && rest[0] != RBrace
    }

    method Token() returns (token: Token)
      requires Valid()
      modifies this
      ensures Valid()
      ensures var (t, rest', state', stack') := Next(old(rest), old(state), old(stack));
              token == t && rest == rest' && state == state' && stack == stack'
    {
      while true
        invariant Valid()
        invariant Next(rest, state, stack) == Next(old(rest), old(state), old(stack))
        decreases |rest|
      {
        if rest == [] {
          return EndOfInput;
        }
        var c := rest[0];
        match c {
          case LBracket =>
            if !ValueAllowed(state) {
              return SyntaxError;
            }
            rest, stack, state := rest[1..], stack + [state], ArrayStart;
            return Delimiter(c);
          case LBrace =>
            if !ValueAllowed(state) {
              return SyntaxError;
            }
            rest, stack, state := rest[1..], stack + [state], ObjectStart;
            return Delimiter(c);
          case RBracket =>
            if state != ArrayStart && state != ArrayComma {
              return SyntaxError;
            }
            rest, state, stack := rest[1..], ValueEnd(stack[|stack| - 1]), stack[..|stack| - 1];
            return Delimiter(c);
          case RBrace =>
            if state != ObjectStart && state != ObjectComma {
              return SyntaxError;
            }
            rest, state, stack := rest[1..], ValueEnd(stack[|stack| - 1]), stack[..|stack| - 1];
            return Delimiter(c);
          case Colon =>
            if state != ObjectColon {
              return SyntaxError;
            }
            rest, state := rest[1..], ObjectValue;
          case Comma =>
            if state == ArrayComma {
              rest, state := rest[1..], ArrayValue;
            } else if state == ObjectComma {
              rest, state := rest[1..], ObjectKey;
            } else {
              return SyntaxError;
            }
          case Str(text) =>
            if state == ObjectStart || state == ObjectKey {
              rest, state := rest[1..], ObjectColon;
              return String(text);
            }
            if !ValueAllowed(state) {
              return SyntaxError;
            }
            rest, state := rest[1..], ValueEnd(state);
            return String(text);
          case Scalar(_) =>
            if !ValueAllowed(state) {
              return SyntaxError;
            }
            rest, state := rest[1..], ValueEnd(state);
            return OtherScalar;
          case Bad =>
            return SyntaxError;
        }
      }
    }
  }

  /** The next token, and what the decoder is left with. */
  function Next(rest: seq<Sym>, state: TokenState, stack: seq<TokenState>): (Token, seq<Sym>, TokenState, seq<TokenState>)
    requires IsOpen(state) ==> stack != []
    decreases |rest|
  {
    if rest == [] then (EndOfInput, rest, state, stack)
    else
      var error := (SyntaxError, rest, state, stack);
      match rest[0]
      case LBracket => if ValueAllowed(state) then (Delimiter(LBracket), rest[1..], ArrayStart, stack + [state]) else error
      case LBrace => if ValueAllowed(state) then (Delimiter(LBrace), rest[1..], ObjectStart, stack + [state]) else error
      case RBracket =>
        if state == ArrayStart || state == ArrayComma then
          (Delimiter(RBracket), rest[1..], ValueEnd(stack[|stack| - 1]), stack[..|stack| - 1])
        else error
      case RBrace =>
        if state == ObjectStart || state == ObjectComma then
          (Delimiter(RBrace), rest[1..], ValueEnd(stack[|stack| - 1]), stack[..|stack| - 1])
        else error
      case Colon => if state == ObjectColon then Next(rest[1..], ObjectValue, stack) else error
      case Comma =>
        if state == ArrayComma then Next(rest[1..], ArrayValue, stack)
        else if state == ObjectComma then Next(rest[1..], ObjectKey, stack)
        else error
      case Str(text) =>
        if state == ObjectStart || state == ObjectKey then (String(text), rest[1..], ObjectColon, stack)
        else if ValueAllowed(state) then (String(text), rest[1..], ValueEnd(state), stack)
        else error
      case Scalar(_) => if ValueAllowed(state) then (OtherScalar, rest[1..], ValueEnd(state), stack) else error
      case Bad => error
  }

  // ---------- The validator ----------

  /** What a value needs to begin with where the decoder stands, and what the parser makes of it. */
  function ParseAt(state: TokenState, rest: seq<Sym>, levels: nat): Option<(Json, seq<Sym>)>
  {
    match state
    case ArrayComma => if rest != [] && rest[0] == Comma then ParseValue(rest[1..], levels) else None
    case ObjectColon => if rest != [] && rest[0] == Colon then ParseValue(rest[1..], levels) else None
    case _ => ParseValue(rest, levels)
  }

  predicate BeforeValue(state: TokenState)
  {
    state in {TopValue, ArrayStart, ArrayComma, ObjectColon}
  }

  function AfterValue(state: TokenState): TokenState
  {
    match state
    case TopValue => TopValue
    case ObjectColon => ObjectComma
    case _ => ArrayComma
  }

  function Levels(depth: nat, maxDepth: nat): nat
  {
    if depth > maxDepth then 0 else maxDepth - depth + 1
  }

  /** The token that begins a value tells how the parse of the value goes on. */
  ghost predicate Begins(
    next: (Token, seq<Sym>, TokenState, seq<TokenState>), size: nat, after: TokenState, stack: seq<TokenState>,
    parsed: Option<(Json, seq<Sym>)>, levels: nat)
    requires levels > 0
  {
    var (t, rest, state, stack') := next;
    match t
    case Delimiter(LBracket) =>
      && |rest| < size && state == ArrayStart && |stack'| == |stack| + 1 && stack'[..|stack|] == stack
      && ValueEnd(stack'[|stack|]) == after
      && var items := ParseItems(true, rest, levels - 1);
         (parsed.Some? <==> items.Some?) && (parsed.Some? ==> parsed.value.1 == items.value.1)
    case Delimiter(LBrace) =>
      && |rest| < size && state == ObjectStart && |stack'| == |stack| + 1 && stack'[..|stack|] == stack
      && ValueEnd(stack'[|stack|]) == after
      && var members := ParseMembers(true, rest, levels - 1, {});
         (parsed.Some? <==> members.Some?) && (parsed.Some? ==> parsed.value.1 == members.value.1)
    case Delimiter(_) => parsed.None?
    case String(_) => parsed.Some? && parsed.value.1 == rest && state == after && stack' == stack
    case OtherScalar => parsed.Some? && parsed.value.1 == rest && state == after && stack' == stack
    case _ => parsed.None?
  }

  lemma ValueToken(rest: seq<Sym>, state: TokenState, stack: seq<TokenState>, size: nat, levels: nat)
    requires ValueAllowed(state) && (IsOpen(state) ==> stack != []) && levels > 0 && |rest| <= size
    ensures Begins(Next(rest, state, stack), size, ValueEnd(state), stack, ParseValue(rest, levels), levels)
  {
  }

  lemma FirstToken(rest: seq<Sym>, state: TokenState, stack: seq<TokenState>, levels: nat)
    requires BeforeValue(state) && (IsOpen(state) ==> stack != []) && levels > 0
    ensures Begins(Next(rest, state, stack), |rest|, AfterValue(state), stack, ParseAt(state, rest, levels), levels)
  {
    hide Begins, ParseValue;
    if state == ArrayComma && rest != [] && rest[0] == Comma {
      ValueToken(rest[1..], ArrayValue, stack, |rest|, levels);
    } else if state == ObjectColon && rest != [] && rest[0] == Colon {
      ValueToken(rest[1..], ObjectValue, stack, |rest|, levels);
    } else if ValueAllowed(state) {
      ValueToken(rest, state, stack, |rest|, levels);
    } else {
      Misplaced(rest, state, stack, levels);
    }
  }

  /** No value begins where a comma or a colon is missing. */
  lemma Misplaced(rest: seq<Sym>, state: TokenState, stack: seq<TokenState>, levels: nat)
    requires stack != [] && levels > 0
    requires (state == ArrayComma && (rest == [] || rest[0] != Comma)) || (state == ObjectColon && (rest == [] || rest[0] != Colon))
    ensures Begins(Next(rest, state, stack), |rest|, AfterValue(state), stack, None, levels)
  {
  }

  /** Consumes one value of at most `maxDepth - depth + 1` levels, and nothing else. */
  method ValidateValue(decoder: Decoder, depth: nat, maxDepth: nat) returns (ok: bool)
    requires decoder.Valid() && BeforeValue(decoder.state)
    modifies decoder
    ensures decoder.Valid()
    ensures var parsed := ParseAt(old(decoder.state), old(decoder.rest), Levels(depth, maxDepth));
            && (ok <==> parsed.Some?)
            && (ok ==> && decoder.rest == parsed.value.1 && |decoder.rest| < |old(decoder.rest)|
                       && decoder.stack == old(decoder.stack) && decoder.state == AfterValue(old(decoder.state)))
    decreases |decoder.rest|, 1
  {
    if depth > maxDepth {
      return false;
    }
    FirstToken(decoder.rest, decoder.state, decoder.stack, Levels(depth, maxDepth));
    var token := decoder.Token();
    match token {
      case Delimiter(LBrace) => ok := ValidateMembers(decoder, depth, maxDepth);
      case Delimiter(LBracket) => ok := ValidateItems(decoder, depth, maxDepth);
      case String(_) => ok := true;
      case OtherScalar => ok := true;
      case _ => ok := false;
    }
  }

  /** Reads one token, which must be the delimiter; at the end of a container that closes it. */
  method ExpectDelimiter(decoder: Decoder, expected: Sym) returns (ok: bool)
    requires decoder.Valid()
    modifies decoder
    ensures decoder.Valid()
    ensures var (t, rest, state, stack) := Next(old(decoder.rest), old(decoder.state), old(decoder.stack));
            && (ok <==> t == Delimiter(expected))
            && decoder.rest == rest && decoder.state == state && decoder.stack == stack
    ensures !old(decoder.More()) && (|| (expected == RBracket && old(decoder.state) in {ArrayStart, ArrayComma})
                                     || (expected == RBrace && old(decoder.state) in {ObjectStart, ObjectComma})) ==>
              && (ok <==> old(decoder.rest) != [] && old(decoder.rest)[0] == expected)
              && (ok ==> && decoder.rest == old(decoder.rest)[1..] && old(decoder.stack) != []
                         && decoder.stack == old(decoder.stack)[..|old(decoder.stack)| - 1]
                         && decoder.state == ValueEnd(old(decoder.stack)[|old(decoder.stack)| - 1]))
  {
    var token := decoder.Token();
    ok := token == Delimiter(expected);
  }

  method ValidateItems(decoder: Decoder, depth: nat, maxDepth: nat) returns (ok: bool)
    requires decoder.Valid() && decoder.state == ArrayStart && depth <= maxDepth
    modifies decoder
    ensures decoder.Valid()
    ensures var parsed := ParseItems(true, old(decoder.rest), Levels(depth, maxDepth) - 1);
            && (ok <==> parsed.Some?)
            && (ok ==> && decoder.rest == parsed.value.1 && old(decoder.stack) != []
                       && decoder.stack == old(decoder.stack)[..|old(decoder.stack)| - 1]
                       && decoder.state == ValueEnd(old(decoder.stack)[|old(decoder.stack)| - 1]))
    decreases |decoder.rest|, 2
  {
    ghost var levels := Levels(depth, maxDepth) - 1;
    ghost var whole := ParseItems(true, decoder.rest, levels);
    while decoder.More()
      invariant decoder.Valid() && decoder.state in {ArrayStart, ArrayComma} && decoder.stack == old(decoder.stack)
      invariant |decoder.rest| <= |old(decoder.rest)|
      invariant var here := ParseItems(decoder.state == ArrayStart, decoder.rest, levels);
                (whole.Some? <==> here.Some?) && (whole.Some? ==> whole.value.1 == here.value.1)
      decreases |decoder.rest|
    {
      ok := ValidateValue(decoder, depth + 1, maxDepth);
      if !ok {
        return;
      }
    }
    ok := ExpectDelimiter(decoder, RBracket);
  }

  method ValidateMembers(decoder: Decoder, depth: nat, maxDepth: nat) returns (ok: bool)
    requires decoder.Valid() && decoder.state == ObjectStart && depth <= maxDepth
    modifies decoder
    ensures decoder.Valid()
    ensures var parsed := ParseMembers(true, old(decoder.rest), Levels(depth, maxDepth) - 1, {});
            && (ok <==> parsed.Some?)
            && (ok ==> && decoder.rest == parsed.value.1 && old(decoder.stack) != []
                       && decoder.stack == old(decoder.stack)[..|old(decoder.stack)| - 1]
                       && decoder.state == ValueEnd(old(decoder.stack)[|old(decoder.stack)| - 1]))
    decreases |decoder.rest|, 2
  {
    ghost var levels := Levels(depth, maxDepth) - 1;
    ghost var whole := ParseMembers(true, decoder.rest, levels, {});
    var keys: set<string> := {};
    while decoder.More()
      invariant decoder.Valid() && decoder.state in {ObjectStart, ObjectComma} && decoder.stack == old(decoder.stack)
      invariant |decoder.rest| <= |old(decoder.rest)|
      invariant var here := ParseMembers(decoder.state == ObjectStart, decoder.rest, levels, keys);
                (whole.Some? <==> here.Some?) && (whole.Some? ==> whole.value.1 == here.value.1)
      decreases |decoder.rest|
    {
      NameToken(decoder.rest, decoder.state, decoder.stack);
      var token := decoder.Token();
      if !token.String? {
        return false;
      }
      if token.text in keys {
        return false;
      }
      keys := keys + {token.text};
      ok := ValidateValue(decoder, depth + 1, maxDepth);
      if !ok {
        return;
      }
    }
    ok := ExpectDelimiter(decoder, RBrace);
  }

  /** Where a member is due, the next token is its name if there is one, after the comma that is due. */
  lemma NameToken(rest: seq<Sym>, state: TokenState, stack: seq<TokenState>)
    requires state in {ObjectStart, ObjectComma} && stack != [] && rest != [] && rest[0] != RBrace
    ensures var (t, rest', state', stack') := Next(rest, state, stack);
            var s := if state == ObjectStart then rest else rest[1..];
            if (state == ObjectComma ==> rest[0] == Comma) && s != [] && s[0].Str? then
              t == String(s[0].text) && rest' == s[1..] && state' == ObjectColon && stack' == stack
            else !t.String?
  {
  }

  /** The text of one value with unique names and bounded nesting. */
  ghost predicate IsStrict(input: seq<Sym>, maxDepth: nat, value: Json)
  {
    Render(value) == input && NamesUnique(value) && Height(value) <= maxDepth
  }

  lemma ParsedIsStrict(input: seq<Sym>, maxDepth: nat)
    ensures (exists value :: IsStrict(input, maxDepth, value)) <==>
            ParseValue(input, maxDepth).Some? && ParseValue(input, maxDepth).value.1 == []
    ensures forall value, other | IsStrict(input, maxDepth, value) && IsStrict(input, maxDepth, other) :: value == other
  {
    forall value | IsStrict(input, maxDepth, value)
      ensures ParseValue(input, maxDepth) == Some((value, []))
    {
      ParseIsComplete(value, [], maxDepth);
      assert Render(value) + [] == input;
    }
    var parsed := ParseValue(input, maxDepth);
    if parsed.Some? && parsed.value.1 == [] {
      ParseIsSound(input, maxDepth);
      assert IsStrict(input, maxDepth, parsed.value.0);
    }
  }

  /** Accepts exactly the texts of one value with unique names and at most `maxDepth` levels. */
  method Validate(input: seq<Sym>, maxDepth: nat) returns (ok: bool)
    ensures ok <==> exists value :: IsStrict(input, maxDepth, value)
  {
    hide IsStrict, ParseValue;
    ParsedIsStrict(input, maxDepth);
    var decoder := new Decoder(input);
    assert Levels(1, maxDepth) == maxDepth;
    ok := ValidateValue(decoder, 1, maxDepth);
    if ok {
      var token := decoder.Token();
      ok := token == EndOfInput;
    }
  }

  /** The part of `DecodeObject` before the typed decoding: an object, strictly written. */
  method CheckObject(input: seq<Sym>, maxDepth: int) returns (ok: bool)
    ensures ok <==> maxDepth >= 1 && exists members :: IsStrict(input, maxDepth, Object(members))
  {
    if input == [] || input[0] != LBrace || maxDepth < 1 {
      return false;
    }
    ok := Validate(input, maxDepth);
    if ok {
      ghost var value :| IsStrict(input, maxDepth, value);
      assert value.Object? by {
        assert Render(value)[0] == LBrace;
      }
      assert IsStrict(input, maxDepth, Object(value.members));
    }
  }
}
