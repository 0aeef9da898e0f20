/** `MediaTypeToVisibilityConverter`: shows a control when the bound media
    type is one of the names listed, comma separated, in the converter
    parameter. The bound value is `null`, an enum value (known by the name
    its `ToString` gives) or any other object; the parameter is `null` or
    the text its `ToString` gives. */
module MediaTypeToVisibilityConverter {
  import opened Wrappers
  import opened Text

  datatype Visibility = Visible | Hidden | Collapsed

  datatype BoundValue = NullValue | EnumValue(name: string) | OtherValue(text: string)

  /** Whether some token, once trimmed, is exactly `name`. This is the
      `foreach` with its early `break`, read from the first token on. */
  function AnyTokenMatches(name: string, tokens: seq<string>): bool
  {
    tokens != [] && (TokenIs(name, tokens[0]) || AnyTokenMatches(name, tokens[1..]))
  }

  /** A token matches exactly when some token, trimmed, equals the name:
      nothing else about the tokens matters. */
  lemma {:induction false} AnyTokenMatchesIff(name: string, tokens: seq<string>)
    ensures AnyTokenMatches(name, tokens) <==> exists k :: 0 <= k < |tokens| && TokenIs(name, tokens[k])
  {
    if tokens != [] {
      var rest := tokens[1..];
      AnyTokenMatchesIff(name, rest);
      assert forall k :: 0 <= k < |rest| ==> rest[k] == tokens[k + 1];
      if AnyTokenMatches(name, tokens) && !TokenIs(name, tokens[0]) {
        var k :| 0 <= k < |rest| && TokenIs(name, rest[k]);
        assert TokenIs(name, tokens[k + 1]);
      }
    }
  }

  /** `name == token.Trim()`. */
  predicate TokenIs(name: string, token: string)
  {
    name == Trim(token)
  }

  /** The result depends on the tokens only as a collection: any reordering
      of them gives the same answer. */
  lemma TokenOrderIrrelevant(name: string, tokens: seq<string>, reordered: seq<string>)
    requires multiset(tokens) == multiset(reordered)
    ensures AnyTokenMatches(name, tokens) == AnyTokenMatches(name, reordered)
  {
    AnyTokenMatchesIff(name, tokens);
    AnyTokenMatchesIff(name, reordered);
    if exists k :: 0 <= k < |tokens| && TokenIs(name, tokens[k]) {
      var k :| 0 <= k < |tokens| && TokenIs(name, tokens[k]);
      assert tokens[k] in multiset(reordered);
      var j :| 0 <= j < |reordered| && reordered[j] == tokens[k];
    }
    if exists k :: 0 <= k < |reordered| && TokenIs(name, reordered[k]) {
      var k :| 0 <= k < |reordered| && TokenIs(name, reordered[k]);
      assert reordered[k] in multiset(tokens);
      var j :| 0 <= j < |tokens| && tokens[j] == reordered[k];
    }
  }

  /** `name` is one of the comma-separated tokens of `parameter`, trimmed. */
  predicate Listed(name: string, parameter: string)
  {
    exists k :: 0 <= k < |Split(parameter, ',')| && TokenIs(name, Split(parameter, ',')[k])
  }

  /** The visibility `Convert` returns, as a definition. */
  function VisibilityOf(value: BoundValue, parameter: Option<string>): Visibility
  {
    match value
    case EnumValue(name) =>
      if parameter.None? then Collapsed
      else if AnyTokenMatches(name, Split(parameter.value, ',')) then Visible
      else Hidden
    case _ => Collapsed
  }

  /** `Convert`: `null` or a value that is not an enum gives `Collapsed`;
      otherwise `Visible` when the value's name is one of the trimmed
      comma-separated tokens of the parameter, and `Hidden` when it is not. */
  method Convert(value: BoundValue, parameter: Option<string>) returns (r: Visibility)
    ensures !value.EnumValue? || parameter.None? <==> r == Collapsed
    ensures value.EnumValue? && parameter.Some? ==>
              (r == Visible <==> Listed(value.name, parameter.value))
    ensures r == VisibilityOf(value, parameter)
  {
    if value.NullValue? || parameter.None? || !value.EnumValue? {
      return Collapsed;
    }
    var currentState := value.name;
    var stateString := parameter.value;
    ghost var tokens := Split(stateString, ',');
    var found := FindToken(currentState, Split(stateString, ','));
    AnyTokenMatchesIff(currentState, tokens);
    assert found <==> Listed(value.name, stateString);
    r := if found then Visible else Hidden;
  }

  /** The `foreach` of `Convert`: `found` is overwritten by each token's
      comparison, and the loop stops at the first match. */
  method FindToken(currentState: string, states: seq<string>) returns (found: bool)
    ensures found == AnyTokenMatches(currentState, states)
  {
    found := false;
    var k := 0;
    assert states[k..] == states;
    while k < |states|
      invariant 0 <= k <= |states|
      invariant !found
      invariant AnyTokenMatches(currentState, states) == AnyTokenMatches(currentState, states[k..])
    {
      AnyTokenMatchesAt(currentState, states, k);
      found := TokenIs(currentState, states[k]);
      if found {
        break;
      }
      k := k + 1;
    }
  }

  /** One pass of the token loop. */
  lemma AnyTokenMatchesAt(name: string, tokens: seq<string>, k: int)
    requires 0 <= k < |tokens|
    ensures AnyTokenMatches(name, tokens[k..]) == (TokenIs(name, tokens[k]) || AnyTokenMatches(name, tokens[k + 1..]))
  {
    assert tokens[k..][0] == tokens[k] && tokens[k..][1..] == tokens[k + 1..];
  }

  /** Matching is exact: a name that differs from every trimmed token, in
      case only or otherwise, is `Hidden`, and a parameter without commas is
      one token. */
  lemma SingleTokenParameter(name: string, parameter: string)
    requires ',' !in parameter
    ensures VisibilityOf(EnumValue(name), Some(parameter)) == if name == Trim(parameter) then Visible else Hidden
  {
    SplitWithoutSeparator(parameter, ',');
    assert [parameter][1..] == [];
    assert !AnyTokenMatches(name, []);
    assert AnyTokenMatches(name, [parameter]) == TokenIs(name, parameter);
  }

  /** `ConvertBack` is not implemented and always throws. */
  function ConvertBack(value: Visibility, parameter: Option<string>): (r: Result<BoundValue>)
    ensures r == Failure(NotImplemented)
  {
    Failure(NotImplemented)
  }
}
