/**
  The token stream `Utf8JsonReader` produces for a secret payload, and the
  flattening the token-stream provider performs over it, as specification
  functions with their properties.
*/
module JsonTokens {
  import opened Wrappers
  import opened Formatting
  import opened ConfigTree

  /**
    A number token as the reader reports it: the Int32 that `TryGetInt32` yields, if
    any, and the `double.ToString()` text of what `TryGetDouble` yields, if any.
  */
  datatype JsonNumber = JsonNumber(asInt32: Option<Int32>, doubleText: Option<string>)

  /** `JsonTokenType`, with the payload the reader gives for each kind. */
  datatype Token =
    | NoneToken
    | StartObject
    | EndObject
    | StartArray
    | EndArray
    | PropertyName(name: string)
    | Comment
    | String(text: string)
    | Number(number: JsonNumber)
    | True
    | False
    | Null

  /**
    The text a token is stored as, or `None` for a token that stores nothing: strings
    verbatim, an integer that fits Int32 as integer text in preference to the double
    text, booleans as `True`/`False`.
  */
  function Render(t: Token): Option<string>
  {
    match t
    case String(s) => Some(s)
    case Number(n) => if n.asInt32.Some? then Some(IntToString(n.asInt32.value)) else n.doubleText
    case True => Some(BoolToString(true))
    case False => Some(BoolToString(false))
    case _ => None
  }

  /**
    Flattening from a given key buffer: a property name appends `":" + name` to the
    buffer; a token with a text is emitted under the buffer, which is then reset to
    `parentPath`; every other token leaves the buffer as it is.
  */
  function FlattenFrom(parentPath: string, buffer: string, tokens: seq<Token>): seq<Pair>
    decreases |tokens|
  {
    if tokens == [] then []
    else if tokens[0].PropertyName? then FlattenFrom(parentPath, buffer + ":" + tokens[0].name, tokens[1..])
    else if Render(tokens[0]).Some? then [(buffer, Render(tokens[0]).value)] + FlattenFrom(parentPath, parentPath, tokens[1..])
    else FlattenFrom(parentPath, buffer, tokens[1..])
  }

  /** The pairs `GetKeyValuePairsFromJson(parentPath, json)` returns for the tokens of `json`. */
  function Flatten(parentPath: string, tokens: seq<Token>): seq<Pair>
  {
    FlattenFrom(parentPath, parentPath, tokens)
  }

  // ---------------------------------------------------------------------------
  // Which tokens emit, and with which values

  predicate Emits(t: Token)
  {
    Render(t).Some?
  }

  /** The texts of the emitting tokens, in token order; no key buffer involved. */
  function RenderedValues(tokens: seq<Token>): seq<string>
  {
    if tokens == [] then []
    else (if Emits(tokens[0]) then [Render(tokens[0]).value] else []) + RenderedValues(tokens[1..])
  }

  function Values(pairs: seq<Pair>): seq<string>
  {
    if pairs == [] then [] else [pairs[0].1] + Values(pairs[1..])
  }

  /** Exactly one pair per emitting token, in token order, carrying that token's text. */
  lemma {:induction false} FlattenValues(parentPath: string, buffer: string, tokens: seq<Token>)
    ensures Values(FlattenFrom(parentPath, buffer, tokens)) == RenderedValues(tokens)
    decreases |tokens|
  {
    if tokens != [] {
      var t := tokens[0];
      if t.PropertyName? {
        FlattenValues(parentPath, buffer + ":" + t.name, tokens[1..]);
      } else if Emits(t) {
        FlattenValues(parentPath, parentPath, tokens[1..]);
        var r := FlattenFrom(parentPath, parentPath, tokens[1..]);
        assert ([(buffer, Render(t).value)] + r)[1..] == r;
      } else {
        FlattenValues(parentPath, buffer, tokens[1..]);
      }
    }
  }

  // ---------------------------------------------------------------------------
  // Under which key a value is emitted

  /** The `":" + name` segments the property names among `tokens` append, in order. */
  function Segments(tokens: seq<Token>): string
  {
    if tokens == [] then []
    else (if tokens[0].PropertyName? then ":" + tokens[0].name else []) + Segments(tokens[1..])
  }

  /** Tokens that emit nothing only grow the key buffer, by their property-name segments. */
  lemma {:induction false} SilentTokens(parentPath: string, buffer: string, pre: seq<Token>, rest: seq<Token>)
    requires forall k :: 0 <= k < |pre| ==> !Emits(pre[k])
    ensures FlattenFrom(parentPath, buffer, pre + rest) == FlattenFrom(parentPath, buffer + Segments(pre), rest)
    decreases |pre|
  {
    if pre == [] {
      assert pre + rest == rest;
      assert buffer + [] == buffer;
    } else {
      var t := pre[0];
      assert (pre + rest)[0] == t;
      assert (pre + rest)[1..] == pre[1..] + rest;
      var grown := if t.PropertyName? then buffer + ":" + t.name else buffer;
      SilentTokens(parentPath, grown, pre[1..], rest);
      assert grown + Segments(pre[1..]) == buffer + Segments(pre);
    }
  }

  /**
    The key rule: a value is emitted under the buffer it found (the parent path after
    the previous value) extended by the segments of the property names read since,
    and the buffer is back at the parent path for what follows.
  */
  lemma FirstEmission(parentPath: string, buffer: string, pre: seq<Token>, t: Token, post: seq<Token>)
    requires forall k :: 0 <= k < |pre| ==> !Emits(pre[k])
    requires Emits(t)
    ensures FlattenFrom(parentPath, buffer, pre + [t] + post)
         == [(buffer + Segments(pre), Render(t).value)] + Flatten(parentPath, post)
  {
    assert pre + [t] + post == pre + ([t] + post);
    SilentTokens(parentPath, buffer, pre, [t] + post);
    assert ([t] + post)[1..] == post;
  }

  // ---------------------------------------------------------------------------
  // Objects

  /** The tokens of the members of an object, each a property name and one scalar token. */
  function MemberTokens(members: seq<(string, Token)>): seq<Token>
  {
    if members == [] then []
    else [PropertyName(members[0].0), members[0].1] + MemberTokens(members[1..])
  }

  function ObjectTokens(members: seq<(string, Token)>): seq<Token>
  {
    [StartObject] + MemberTokens(members) + [EndObject]
  }

  lemma {:induction false} FlatMembers(parentPath: string, members: seq<(string, Token)>, rest: seq<Token>)
    requires forall i :: 0 <= i < |members| ==> Emits(members[i].1)
    ensures var r := Flatten(parentPath, MemberTokens(members) + rest);
      && |r| >= |members|
      && (forall i :: 0 <= i < |members| ==> Emits(members[i].1) && r[i] == (parentPath + ":" + members[i].0, Render(members[i].1).value))
      && r[|members|..] == Flatten(parentPath, rest)
    decreases |members|
  {
    if members == [] {
      assert MemberTokens(members) + rest == rest;
    } else {
      var m := members[0];
      var tail := MemberTokens(members[1..]) + rest;
      assert MemberTokens(members) + rest == [PropertyName(m.0)] + [m.1] + tail;
      FirstEmission(parentPath, parentPath, [PropertyName(m.0)], m.1, tail);
      assert Segments([PropertyName(m.0)]) == ":" + m.0;
      FlatMembers(parentPath, members[1..], rest);
    }
  }

  /**
    An object whose members are all scalars yields one pair per member, in member
    order, each under `parentPath + ":" + name`: siblings do not accumulate.
  */
  lemma FlatObject(parentPath: string, members: seq<(string, Token)>)
    requires forall i :: 0 <= i < |members| ==> Emits(members[i].1)
    ensures var r := Flatten(parentPath, ObjectTokens(members));
      && |r| == |members|
      && forall i :: 0 <= i < |members| ==> Emits(members[i].1) && r[i] == (parentPath + ":" + members[i].0, Render(members[i].1).value)
  {
    FlatMembers(parentPath, members, [EndObject]);
    assert ObjectTokens(members) == [StartObject] + (MemberTokens(members) + [EndObject]);
  }

  /** A stream in which nothing emits yields no pairs. */
  lemma Silent(parentPath: string, buffer: string, tokens: seq<Token>)
    requires forall k :: 0 <= k < |tokens| ==> !Emits(tokens[k])
    ensures FlattenFrom(parentPath, buffer, tokens) == []
  {
    SilentTokens(parentPath, buffer, tokens, []);
    assert tokens + [] == tokens;
  }

  // ---------------------------------------------------------------------------
  // Consequences of the reset-to-parent rule on particular payloads

  function Int(n: Int32): Token
  {
    Number(JsonNumber(Some(n), Some(IntToString(n))))
  }

  lemma SmallIntText()
    ensures IntToString(1) == "1" && IntToString(2) == "2"
  {
    assert NatToString(1) == [DigitChar(1)] == "1";
    assert NatToString(2) == [DigitChar(2)] == "2";
  }

  /** `{"a":null,"b":2}` under `x`: the null emits nothing and its segment stays, giving `x:a:b`. */
  lemma NullKeepsItsSegment()
    ensures Flatten("x", [StartObject, PropertyName("a"), Null, PropertyName("b"), Int(2), EndObject])
         == [("x:a:b", "2")]
  {
    var pre := [StartObject, PropertyName("a"), Null, PropertyName("b")];
    assert [StartObject, PropertyName("a"), Null, PropertyName("b"), Int(2), EndObject] == pre + [Int(2)] + [EndObject];
    SmallIntText();
    FirstEmission("x", "x", pre, Int(2), [EndObject]);
    assert Segments(pre) == ":a:b";
    Silent("x", "x", [EndObject]);
    assert Render(Int(2)).value == "2";
    assert "x" + ":a:b" == "x:a:b";
    assert [("x:a:b", "2")] + [] == [("x:a:b", "2")];
  }

  /** `{"o":{"a":1,"b":2}}` under `x`: the second inner member loses the `o` segment. */
  lemma NestedSiblingLosesSegment()
    ensures Flatten("x", [StartObject, PropertyName("o"), StartObject, PropertyName("a"), Int(1),
                          PropertyName("b"), Int(2), EndObject, EndObject])
         == [("x:o:a", "1"), ("x:b", "2")]
  {
    var pre1 := [StartObject, PropertyName("o"), StartObject, PropertyName("a")];
    var pre2 := [PropertyName("b")];
    var post2 := [EndObject, EndObject];
    var post1 := pre2 + [Int(2)] + post2;
    assert [StartObject, PropertyName("o"), StartObject, PropertyName("a"), Int(1),
            PropertyName("b"), Int(2), EndObject, EndObject] == pre1 + [Int(1)] + post1;
    SmallIntText();
    FirstEmission("x", "x", pre1, Int(1), post1);
    assert Segments(pre1) == ":o:a";
    FirstEmission("x", "x", pre2, Int(2), post2);
    assert Segments(pre2) == ":b";
    Silent("x", "x", post2);
    assert Render(Int(1)).value == "1" && Render(Int(2)).value == "2";
    assert "x" + ":o:a" == "x:o:a" && "x" + ":b" == "x:b";
    assert [("x:o:a", "1")] + ([("x:b", "2")] + []) == [("x:o:a", "1"), ("x:b", "2")];
  }

  /** `{"n":[1,2]}` under `x`: the first element is stored under `x:n`, the second under `x`. */
  lemma ArrayElementsAfterTheFirstLoseTheName()
    ensures Flatten("x", [StartObject, PropertyName("n"), StartArray, Int(1), Int(2), EndArray, EndObject])
         == [("x:n", "1"), ("x", "2")]
  {
    var pre1 := [StartObject, PropertyName("n"), StartArray];
    var post2 := [EndArray, EndObject];
    var post1 := [] + [Int(2)] + post2;
    assert [StartObject, PropertyName("n"), StartArray, Int(1), Int(2), EndArray, EndObject] == pre1 + [Int(1)] + post1;
    SmallIntText();
    FirstEmission("x", "x", pre1, Int(1), post1);
    assert Segments(pre1) == ":n";
    FirstEmission("x", "x", [], Int(2), post2);
    assert "x" + Segments([]) == "x";
    Silent("x", "x", post2);
    assert Render(Int(1)).value == "1" && Render(Int(2)).value == "2";
    assert "x" + ":n" == "x:n";
    assert [("x:n", "1")] + ([("x", "2")] + []) == [("x:n", "1"), ("x", "2")];
  }

  /** With an empty parent path every key starts with the separator: `{"a":1}` gives `:a`. */
  lemma EmptyParentPathKeepsLeadingColon()
    ensures Flatten("", [StartObject, PropertyName("a"), Int(1), EndObject]) == [(":a", "1")]
  {
    var pre := [StartObject, PropertyName("a")];
    assert [StartObject, PropertyName("a"), Int(1), EndObject] == pre + [Int(1)] + [EndObject];
    SmallIntText();
    FirstEmission("", "", pre, Int(1), [EndObject]);
    assert Segments(pre) == ":a";
    Silent("", "", [EndObject]);
    assert Render(Int(1)).value == "1";
    assert "" + ":a" == ":a";
    assert [(":a", "1")] + [] == [(":a", "1")];
  }

  /** `{"d":0.5}`: a number that is not an Int32 is stored as its double text. */
  lemma NonIntegerNumberUsesDoubleText()
    ensures Flatten("x", [StartObject, PropertyName("d"), Number(JsonNumber(None, Some("0.5"))), EndObject])
         == [("x:d", "0.5")]
  {
    var t := Number(JsonNumber(None, Some("0.5")));
    var pre := [StartObject, PropertyName("d")];
    assert [StartObject, PropertyName("d"), t, EndObject] == pre + [t] + [EndObject];
    FirstEmission("x", "x", pre, t, [EndObject]);
    assert Segments(pre) == ":d";
    Silent("x", "x", [EndObject]);
    assert "x" + ":d" == "x:d";
    assert [("x:d", "0.5")] + [] == [("x:d", "0.5")];
  }
}
