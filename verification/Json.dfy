/**
 Strict JSON (RFC 8259, sections 4 and 9): one value, no repeated object name,
 bounded nesting.
 */
module Json {
  import opened Tables

  // ---------- Texts and values ----------

  /** The lexical elements of a text; `Bad` is anything that is none. */
  datatype Sym = LBrace | RBrace | LBracket | RBracket | Comma | Colon | Str(text: string) | Scalar(text: string) | Bad

  datatype Json = Text(text: string) | Atom(text: string) | Array(items: Items) | Object(members: Members)
  datatype Items = NoItems | Item(head: Json, tail: Items)
  datatype Members = NoMembers | Member(name: string, value: Json, others: Members)

  function Render(value: Json): (syms: seq<Sym>)
    ensures syms != []
    decreases value
  {
    match value
    case Text(text) => [Str(text)]
    case Atom(text) => [Scalar(text)]
    case Array(items) => [LBracket] + RenderItems(true, items)
    case Object(members) => [LBrace] + RenderMembers(true, members)
  }

  function RenderItems(first: bool, items: Items): seq<Sym>
    decreases items
  {
    match items
    case NoItems => [RBracket]
    case Item(head, tail) => (if first then [] else [Comma]) + Render(head) + RenderItems(false, tail)
  }

  function RenderMembers(first: bool, members: Members): seq<Sym>
    decreases members
  {
    match members
    case NoMembers => [RBrace]
    case Member(name, value, others) =>
      (if first then [] else [Comma]) + [Str(name), Colon] + Render(value) + RenderMembers(false, others)
  }

  function Max(a: nat, b: nat): nat
  {
    if a > b then a else b
  }

  /** A scalar counts as one level. */
  function Height(value: Json): nat
  {
    match value
    case Array(items) => 1 + ItemsHeight(items)
    case Object(members) => 1 + MembersHeight(members)
    case _ => 1
  }

  function ItemsHeight(items: Items): nat
  {
    match items
    case NoItems => 0
    case Item(head, tail) => Max(Height(head), ItemsHeight(tail))
  }

  function MembersHeight(members: Members): nat
  {
    match members
    case NoMembers => 0
    case Member(_, value, others) => Max(Height(value), MembersHeight(others))
  }

  function Names(members: Members): set<string>
  {
    match members
    case NoMembers => {}
    case Member(name, _, others) => {name} + Names(others)
  }

  /** No object in the value repeats a name. */
  predicate NamesUnique(value: Json)
  {
    match value
    case Array(items) => ItemsUnique(items)
    case Object(members) => MembersUnique(members)
    case _ => true
  }

  predicate ItemsUnique(items: Items)
  {
    match items
    case NoItems => true
    case Item(head, tail) => NamesUnique(head) && ItemsUnique(tail)
  }

  predicate MembersUnique(members: Members)
  {
    match members
    case NoMembers => true
    case Member(name, value, others) => name !in Names(others) && NamesUnique(value) && MembersUnique(others)
  }

  // ---------- A recursive-descent parser ----------

  /** A value of at most `levels` levels at the front of `s`, and what comes after it. */
  function ParseValue(s: seq<Sym>, levels: nat): (r: Option<(Json, seq<Sym>)>)
    ensures r.Some? ==> |r.value.1| < |s|
    decreases |s|, 0
  {
    if levels == 0 || s == [] then None
    else match s[0]
      case Str(text) => Some((Text(text), s[1..]))
      case Scalar(text) => Some((Atom(text), s[1..]))
      case LBracket =>
        var items := ParseItems(true, s[1..], levels - 1);
        if items.None? then None else Some((Array(items.value.0), items.value.1))
      case LBrace =>
        var members := ParseMembers(true, s[1..], levels - 1, {});
        if members.None? then None else Some((Object(members.value.0), members.value.1))
      case _ => None
  }

  function ParseItems(first: bool, s: seq<Sym>, levels: nat): (r: Option<(Items, seq<Sym>)>)
    ensures r.Some? ==> |r.value.1| < |s|
    decreases |s|, 1
  {
    if s == [] then None
    else if s[0] == RBracket then Some((NoItems, s[1..]))
    else if !first && s[0] != Comma then None
    else
      var head := ParseValue(if first then s else s[1..], levels);
      if head.None? then None
      else
        var tail := ParseItems(false, head.value.1, levels);
        if tail.None? then None else Some((Item(head.value.0, tail.value.0), tail.value.1))
  }

  function ParseMembers(first: bool, s: seq<Sym>, levels: nat, names: set<string>): (r: Option<(Members, seq<Sym>)>)
    ensures r.Some? ==> |r.value.1| < |s|
    decreases |s|, 1
  {
    if s == [] then None
    else if s[0] == RBrace then Some((NoMembers, s[1..]))
    else if !first && s[0] != Comma then None
    else
      var t := if first then s else s[1..];
      if |t| < 2 || !t[0].Str? || t[0].text in names || t[1] != Colon then None
      else
        var value := ParseValue(t[2..], levels);
        if value.None? then None
        else
          var others := ParseMembers(false, value.value.1, levels, names + {t[0].text});
          if others.None? then None else Some((Member(t[0].text, value.value.0, others.value.0), others.value.1))
  }

  // ---------- The parser recognises exactly the renderings ----------

  lemma {:induction false} ParseIsSound(s: seq<Sym>, levels: nat)
    ensures var r := ParseValue(s, levels);
            r.Some? ==> s == Render(r.value.0) + r.value.1 && NamesUnique(r.value.0) && Height(r.value.0) <= levels
    decreases |s|, 0
  {
    if levels > 0 && s != [] && ParseValue(s, levels).Some? {
      assert s == [s[0]] + s[1..];
      match s[0]
      case LBracket => ItemsAreSound(true, s[1..], levels - 1);
      case LBrace => MembersAreSound(true, s[1..], levels - 1, {});
      case _ =>
    }
  }

  lemma {:induction false} ItemsAreSound(first: bool, s: seq<Sym>, levels: nat)
    ensures var r := ParseItems(first, s, levels);
            r.Some? ==> s == RenderItems(first, r.value.0) + r.value.1 && ItemsUnique(r.value.0) && ItemsHeight(r.value.0) <= levels
    decreases |s|, 1
  {
    var r := ParseItems(first, s, levels);
    if r.Some? {
      assert s == [s[0]] + s[1..];
      if s[0] != RBracket {
        var t := if first then s else s[1..];
        ParseIsSound(t, levels);
        ItemsAreSound(false, ParseValue(t, levels).value.1, levels);
      }
    }
  }

  lemma {:induction false} MembersAreSound(first: bool, s: seq<Sym>, levels: nat, names: set<string>)
    ensures var r := ParseMembers(first, s, levels, names);
            r.Some? ==> s == RenderMembers(first, r.value.0) + r.value.1 && MembersUnique(r.value.0)
                        && MembersHeight(r.value.0) <= levels && Names(r.value.0) !! names
    decreases |s|, 1
  {
    var r := ParseMembers(first, s, levels, names);
    if r.Some? && s[0] != RBrace {
      var t := if first then s else s[1..];
      var value := ParseValue(t[2..], levels).value;
      ParseIsSound(t[2..], levels);
      MembersAreSound(false, value.1, levels, names + {t[0].text});
      var others := ParseMembers(false, value.1, levels, names + {t[0].text}).value;
      MemberText(first, s, t, value.0, value.1, others.0, others.1);
    } else if r.Some? {
      assert s == [s[0]] + s[1..];
    }
  }

  /** Putting the text of a member together. */
  lemma MemberText(
    first: bool, s: seq<Sym>, t: seq<Sym>, value: Json, after: seq<Sym>, others: Members, rest: seq<Sym>)
    requires s != [] && (if first then t == s else s[0] == Comma && t == s[1..])
    requires |t| >= 2 && t[0].Str? && t[1] == Colon && t[2..] == Render(value) + after && after == RenderMembers(false, others) + rest
    ensures s == RenderMembers(first, Member(t[0].text, value, others)) + rest
  {
    assert t == [Str(t[0].text), Colon] + (Render(value) + (RenderMembers(false, others) + rest));
    assert first || s == [Comma] + t;
  }

  lemma {:induction false} ParseIsComplete(value: Json, rest: seq<Sym>, levels: nat)
    requires NamesUnique(value) && Height(value) <= levels
    ensures ParseValue(Render(value) + rest, levels) == Some((value, rest))
    decreases value
  {
    var s := Render(value) + rest;
    match value
    case Array(items) =>
      assert s[1..] == RenderItems(true, items) + rest;
      ItemsAreComplete(true, items, rest, levels - 1);
    case Object(members) =>
      assert s[1..] == RenderMembers(true, members) + rest;
      MembersAreComplete(true, members, rest, levels - 1, {});
    case _ => assert s[1..] == rest;
  }

  lemma {:induction false} ItemsAreComplete(first: bool, items: Items, rest: seq<Sym>, levels: nat)
    requires ItemsUnique(items) && ItemsHeight(items) <= levels
    ensures ParseItems(first, RenderItems(first, items) + rest, levels) == Some((items, rest))
    decreases items
  {
    var s := RenderItems(first, items) + rest;
    match items
    case NoItems => assert s[1..] == rest;
    case Item(head, tail) =>
      var t := Render(head) + (RenderItems(false, tail) + rest);
      assert s == (if first then [] else [Comma]) + t;
      assert (if first then s else s[1..]) == t;
      ParseIsComplete(head, RenderItems(false, tail) + rest, levels);
      ItemsAreComplete(false, tail, rest, levels);
      FirstSym(head);
      assert t[0] == Render(head)[0];
  }

  /** A value does not begin with a closing delimiter or a comma. */
  lemma FirstSym(value: Json)
    ensures Render(value)[0] in {LBracket, LBrace} || Render(value)[0].Str? || Render(value)[0].Scalar?
  {
  }

  lemma {:induction false} MembersAreComplete(first: bool, members: Members, rest: seq<Sym>, levels: nat, names: set<string>)
    requires MembersUnique(members) && MembersHeight(members) <= levels && Names(members) !! names
    ensures ParseMembers(first, RenderMembers(first, members) + rest, levels, names) == Some((members, rest))
    decreases members
  {
    match members
    case NoMembers => assert ([RBrace] + rest)[1..] == rest;
    case Member(name, value, others) =>
      MemberFront(first, name, value, others, rest);
      hide Render, RenderMembers, NamesUnique, Height;
      ParseIsComplete(value, RenderMembers(false, others) + rest, levels);
      MembersAreComplete(false, others, rest, levels, names + {name});
  }

  lemma MemberFront(first: bool, name: string, value: Json, others: Members, rest: seq<Sym>)
    ensures var s := RenderMembers(first, Member(name, value, others)) + rest;
            var t := if first then s else s[1..];
            && s != [] && s[0] == (if first then Str(name) else Comma)
            && |t| >= 2 && t[0] == Str(name) && t[1] == Colon && t[2..] == Render(value) + (RenderMembers(false, others) + rest)
  {
    var after := Render(value) + (RenderMembers(false, others) + rest);
    var t := [Str(name), Colon] + after;
    var s := RenderMembers(first, Member(name, value, others)) + rest;
    assert s == (if first then [] else [Comma]) + t;
    assert (if first then s else s[1..]) == t && t[2..] == after;
  }
}
