/**
 The two token-driven checks that no JSON object repeats a member name (section 4 of RFC 8259): the
 event decoder's, and the one of the memory command, which also bounds nesting.
 */
module JsonMembers {
  import opened Options

  datatype Token = Scalar | Text(text: string) | OpenObject | CloseObject | OpenArray | CloseArray

  datatype Value = Atom | Str(text: string) | Object(members: Members) | Array(items: Items)
  datatype Members = NoMember | Member(name: string, value: Value, others: Members)
  datatype Items = NoItem | Item(value: Value, others: Items)

  function Tokens(v: Value): seq<Token> {
    match v
    case Atom => [Scalar]
    case Str(s) => [Text(s)]
    case Object(ms) => [OpenObject] + MemberTokens(ms) + [CloseObject]
    case Array(xs) => [OpenArray] + ItemTokens(xs) + [CloseArray]
  }

  function MemberTokens(ms: Members): seq<Token> {
    match ms
    case NoMember => []
    case Member(name, v, others) => [Text(name)] + Tokens(v) + MemberTokens(others)
  }

  function ItemTokens(xs: Items): seq<Token> {
    match xs
    case NoItem => []
    case Item(v, others) => Tokens(v) + ItemTokens(others)
  }

  function Names(ms: Members): set<string> {
    match ms
    case NoMember => {}
    case Member(name, _, others) => {name} + Names(others)
  }

  /** No object at any depth repeats a member name. */
  predicate Unique(v: Value) {
    match v
    case Atom => true
    case Str(_) => true
    case Object(ms) => UniqueMembers(ms)
    case Array(xs) => UniqueItems(xs)
  }

  predicate UniqueMembers(ms: Members) {
    match ms
    case NoMember => true
    case Member(name, v, others) => name !in Names(others) && Unique(v) && UniqueMembers(others)
  }

  predicate UniqueItems(xs: Items) {
    match xs
    case NoItem => true
    case Item(v, others) => Unique(v) && UniqueItems(others)
  }

  function Max(a: nat, b: nat): nat {
    if a < b then b else a
  }

  /** The levels of a value; a scalar is one level. */
  function Depth(v: Value): nat {
    match v
    case Atom => 1
    case Str(_) => 1
    case Object(ms) => 1 + MemberDepth(ms)
    case Array(xs) => 1 + ItemDepth(xs)
  }

  function MemberDepth(ms: Members): nat {
    match ms
    case NoMember => 0
    case Member(_, v, others) => Max(Depth(v), MemberDepth(others))
  }

  function ItemDepth(xs: Items): nat {
    match xs
    case NoItem => 0
    case Item(v, others) => Max(Depth(v), ItemDepth(others))
  }

  /** How many levels may still be opened; no limit at all for events. */
  type Limit = Option<nat>

  predicate Within(depth: nat, limit: Limit) {
    limit.Some? ==> depth <= limit.value
  }

  function Below(limit: Limit): Limit
    requires limit != Some(0)
  {
    if limit.None? then None else Some(limit.value - 1)
  }

  /** The levels still allowed at nesting level `depth`. */
  function Levels(depth: nat, maxDepth: nat): nat {
    if depth > maxDepth then 0 else maxDepth + 1 - depth
  }

  // What is left of a token stream once the check has passed over one value.

  function Check(s: seq<Token>, limit: Limit): (rest: Option<seq<Token>>)
    ensures rest.Some? ==> |rest.value| < |s|
    decreases |s|, 0
  {
    if limit == Some(0) || s == [] then None
    else
      match s[0]
      case Scalar => Some(s[1..])
      case Text(_) => Some(s[1..])
      case OpenObject => CheckMembers(s[1..], {}, Below(limit))
      case OpenArray => CheckItems(s[1..], Below(limit))
      case CloseObject => None
      case CloseArray => None
  }

  function CheckMembers(s: seq<Token>, seen: set<string>, limit: Limit): (rest: Option<seq<Token>>)
    ensures rest.Some? ==> |rest.value| < |s|
    decreases |s|, 1
  {
    if s == [] then None
    else if s[0].CloseObject? then Some(s[1..])
    else if !s[0].Text? || s[0].text in seen then None
    else
      var value := Check(s[1..], limit);
      if value.None? then None else CheckMembers(value.value, seen + {s[0].text}, limit)
  }

  function CheckItems(s: seq<Token>, limit: Limit): (rest: Option<seq<Token>>)
    ensures rest.Some? ==> |rest.value| < |s|
    decreases |s|, 1
  {
    if s == [] then None
    else if s[0].CloseArray? then Some(s[1..])
    else
      var value := Check(s, limit);
      if value.None? then None else CheckItems(value.value, limit)
  }

  /** On the tokens of any value the check consumes exactly those, and accepts exactly unique values within the
      limit. */
  lemma {:induction false} CheckDecides(v: Value, rest: seq<Token>, limit: Limit)
    ensures Check(Tokens(v) + rest, limit) == if Unique(v) && Within(Depth(v), limit) then Some(rest) else None
    decreases v, 0
  {
    var s := Tokens(v) + rest;
    if limit != Some(0) {
      match v
      case Atom => assert s[1..] == rest;
      case Str(_) => assert s[1..] == rest;
      case Object(ms) =>
        assert s[1..] == MemberTokens(ms) + [CloseObject] + rest;
        MembersDecide(ms, rest, {}, Below(limit));
      case Array(xs) =>
        assert s[1..] == ItemTokens(xs) + [CloseArray] + rest;
        ItemsDecide(xs, rest, Below(limit));
    }
  }

  lemma {:induction false} MembersDecide(ms: Members, rest: seq<Token>, seen: set<string>, limit: Limit)
    ensures CheckMembers(MemberTokens(ms) + [CloseObject] + rest, seen, limit) ==
            if UniqueMembers(ms) && Names(ms) !! seen && Within(MemberDepth(ms), limit) then Some(rest) else None
    decreases ms, 1
  {
    var s := MemberTokens(ms) + [CloseObject] + rest;
    match ms
    case NoMember => assert s[1..] == rest;
    case Member(name, v, others) =>
      var after := MemberTokens(others) + [CloseObject] + rest;
      assert s[1..] == Tokens(v) + after;
      CheckDecides(v, after, limit);
      MembersDecide(others, rest, seen + {name}, limit);
  }

  lemma {:induction false} ItemsDecide(xs: Items, rest: seq<Token>, limit: Limit)
    ensures CheckItems(ItemTokens(xs) + [CloseArray] + rest, limit) ==
            if UniqueItems(xs) && Within(ItemDepth(xs), limit) then Some(rest) else None
    decreases xs, 1
  {
    var s := ItemTokens(xs) + [CloseArray] + rest;
    match xs
    case NoItem => assert s[1..] == rest;
    case Item(v, others) =>
      var after := ItemTokens(others) + [CloseArray] + rest;
      assert s == Tokens(v) + after;
      FirstToken(v);
      CheckDecides(v, after, limit);
      ItemsDecide(others, rest, limit);
  }

  lemma FirstToken(v: Value)
    ensures Tokens(v) != [] && !Tokens(v)[0].CloseArray? && !Tokens(v)[0].CloseObject?
  {
  }

  /** Whatever stream the check accepts, what it consumed is the tokens of a unique value within the limit. */
  lemma CheckIsSound(s: seq<Token>, limit: Limit) returns (v: Value)
    requires Check(s, limit).Some?
    ensures s == Tokens(v) + Check(s, limit).value && Unique(v) && Within(Depth(v), limit)
  {
    v := ConsumedValue(s, limit);
    CheckDecides(v, Check(s, limit).value, limit);
  }

  lemma {:induction false} ConsumedValue(s: seq<Token>, limit: Limit) returns (v: Value)
    requires Check(s, limit).Some?
    ensures s == Tokens(v) + Check(s, limit).value
    decreases |s|, 0
  {
    if s[0].Scalar? {
      v := Atom;
    } else if s[0].Text? {
      v := Str(s[0].text);
    } else if s[0].OpenObject? {
      var ms := ConsumedMembers(s[1..], {}, Below(limit));
      v := Object(ms);
      assert s == [s[0]] + s[1..];
    } else {
      var xs := ConsumedItems(s[1..], Below(limit));
      v := Array(xs);
      assert s == [s[0]] + s[1..];
    }
  }

  lemma {:induction false} ConsumedMembers(s: seq<Token>, seen: set<string>, limit: Limit) returns (ms: Members)
    requires CheckMembers(s, seen, limit).Some?
    ensures s == MemberTokens(ms) + [CloseObject] + CheckMembers(s, seen, limit).value
    decreases |s|, 1
  {
    if s[0].CloseObject? {
      ms := NoMember;
    } else {
      var after := Check(s[1..], limit).value;
      var v := ConsumedValue(s[1..], limit);
      var others := ConsumedMembers(after, seen + {s[0].text}, limit);
      ms := Member(s[0].text, v, others);
      var rest := CheckMembers(s, seen, limit).value;
      assert s == [s[0]] + s[1..];
      Regroup([s[0]], Tokens(v), MemberTokens(others), [CloseObject], rest);
    }
  }

  lemma Regroup(a: seq<Token>, b: seq<Token>, c: seq<Token>, d: seq<Token>, e: seq<Token>)
    ensures a + (b + (c + d + e)) == a + b + c + d + e
  {
  }

  lemma {:induction false} ConsumedItems(s: seq<Token>, limit: Limit) returns (xs: Items)
    requires CheckItems(s, limit).Some?
    ensures s == ItemTokens(xs) + [CloseArray] + CheckItems(s, limit).value
    decreases |s|, 1
  {
    if s[0].CloseArray? {
      xs := NoItem;
    } else {
      var after := Check(s, limit).value;
      var v := ConsumedValue(s, limit);
      var others := ConsumedItems(after, limit);
      xs := Item(v, others);
    }
  }

  /** A whole stream passes exactly when it is the tokens of one unique value within the limit. */
  lemma WholeStream(s: seq<Token>, limit: Limit)
    ensures Check(s, limit) == Some([]) <==> exists v :: s == Tokens(v) && Unique(v) && Within(Depth(v), limit)
  {
    if Check(s, limit) == Some([]) {
      var v := CheckIsSound(s, limit);
      assert Tokens(v) + [] == Tokens(v);
    }
    forall v | s == Tokens(v) && Unique(v) && Within(Depth(v), limit) ensures Check(s, limit) == Some([]) {
      CheckDecides(v, [], limit);
      assert Tokens(v) + [] == Tokens(v);
    }
  }

  /** A streaming decoder: the tokens it will yield, and whether malformed input follows the last of them. */
  class Decoder {
    const size: nat
    const tokens: seq<Token>
    const broken: bool
    var pos: nat

    ghost predicate Valid() reads this { pos <= |tokens| }

    /** The tokens not read yet. */
    ghost function Ahead(): seq<Token> reads this requires Valid() { tokens[pos..] }

    constructor (size: nat, tokens: seq<Token>, broken: bool)
      ensures Valid() && this.size == size && this.broken == broken && this.tokens == tokens && Ahead() == tokens
    {
      this.size, this.tokens, this.broken, pos := size, tokens, broken, 0;
    }

    method Token() returns (token: Option<Token>)
      requires Valid()
      modifies this
      ensures Valid()
      ensures old(Ahead()) == [] ==> token.None? && pos == old(pos)
      ensures old(Ahead()) != [] ==>
                token == Some(old(Ahead())[0]) && pos == old(pos) + 1 && Ahead() == old(Ahead())[1..]
    {
      if pos == |tokens| { return None; }
      token := Some(tokens[pos]);
      pos := pos + 1;
    }

    predicate More() reads this requires Valid() {
      pos < |tokens| && !tokens[pos].CloseObject? && !tokens[pos].CloseArray?
    }

    predicate AtEnd() reads this requires Valid() {
      pos == |tokens| && !broken
    }

    /** The event decoder's check of one value. */
    method ValidateUniqueJsonValue() returns (ok: bool)
      requires Valid()
      modifies this
      ensures Valid()
      ensures ok <==> Check(old(Ahead()), None).Some?
      ensures ok ==> Check(old(Ahead()), None) == Some(Ahead())
      decreases |tokens| - pos
    {
      var token := Token();
      if token.None? { return false; }
      if token.value.Scalar? || token.value.Text? { return true; }
      if token.value.OpenObject? {
        var seen := {};
        while More()
          invariant Valid() && pos > old(pos)
          invariant CheckMembers(Ahead(), seen, None) == Check(old(Ahead()), None)
          decreases |tokens| - pos
        {
          var key := Token();
          if key.None? || !key.value.Text? { return false; }
          if key.value.text in seen { return false; }
          seen := seen + {key.value.text};
          var inner := ValidateUniqueJsonValue();
          if !inner { return false; }
        }
        var end := Token();
        return end == Some(CloseObject);
      }
      if token.value.OpenArray? {
        while More()
          invariant Valid() && pos > old(pos)
          invariant CheckItems(Ahead(), None) == Check(old(Ahead()), None)
          decreases |tokens| - pos
        {
          var inner := ValidateUniqueJsonValue();
          if !inner { return false; }
        }
        var end := Token();
        return end == Some(CloseArray);
      }
      return false;
    }

    /** The event decoder's check of a payload. */
    method ValidateUniqueJsonMembers() returns (ok: bool)
      requires pos == 0
      modifies this
      ensures ok <==> !broken && exists v :: tokens == Tokens(v) && Unique(v)
    {
      WholeStream(tokens, None);
      assert tokens[0..] == tokens;
      ok := ValidateUniqueJsonValue();
      ok := ok && AtEnd();
    }

    /** The memory command's check of one value at nesting level `depth`. */
    method UniqueJsonValue(mustBeObject: bool, depth: nat, maxDepth: nat) returns (ok: bool)
      requires Valid()
      modifies this
      ensures Valid()
      ensures var found := Check(old(Ahead()), Some(Levels(depth, maxDepth)));
              && (ok <==> found.Some? && (mustBeObject ==> old(Ahead())[0].OpenObject?))
              && (ok ==> found == Some(Ahead()))
      decreases |tokens| - pos
    {
      if depth > maxDepth { return false; }
      var token := Token();
      if token.None? { return false; }
      if mustBeObject && !token.value.OpenObject? { return false; }
      if token.value.Scalar? || token.value.Text? { return true; }
      ghost var whole, limit := Check(old(Ahead()), Some(Levels(depth, maxDepth))), Some(Levels(depth + 1, maxDepth));
      if token.value.OpenObject? {
        var seen := {};
        while More()
          invariant Valid() && pos > old(pos)
          invariant CheckMembers(Ahead(), seen, limit) == whole
          decreases |tokens| - pos
        {
          var key := Token();
          if key.None? || !key.value.Text? { return false; }
          if key.value.text in seen { return false; }
          seen := seen + {key.value.text};
          var inner := UniqueJsonValue(false, depth + 1, maxDepth);
          if !inner { return false; }
        }
        var end := Token();
        return end == Some(CloseObject);
      }
      if token.value.OpenArray? {
        while More()
          invariant Valid() && pos > old(pos)
          invariant CheckItems(Ahead(), limit) == whole
          decreases |tokens| - pos
        {
          var inner := UniqueJsonValue(false, depth + 1, maxDepth);
          if !inner { return false; }
        }
        var end := Token();
        return end == Some(CloseArray);
      }
      return false;
    }

    /** The memory command's check of a message: one object, within the depth limit, and nothing after it. */
    method ValidUniqueJsonObject(maxDepth: nat) returns (ok: bool)
      requires pos == 0
      modifies this
      ensures ok <==>
              && 0 < size <= MAX_MCP_MESSAGE_BYTES
              && !broken
              && exists v: Value :: v.Object? && tokens == Tokens(v) && Unique(v) && Depth(v) <= maxDepth
    {
      WholeStream(tokens, Some(maxDepth));
      assert tokens[0..] == tokens;
      if size == 0 || size > MAX_MCP_MESSAGE_BYTES { return false; }
      ok := UniqueJsonValue(true, 1, maxDepth);
      ok := ok && AtEnd();
      assert forall v: Value :: tokens == Tokens(v) && tokens[0].OpenObject? ==> v.Object?;
    }
  }

  const MAX_MCP_MESSAGE_BYTES := 1048576 + 8192
}
