/** `parse_tool_call`: the four conventions are tried in order, each on its leftmost match only, and
    the first that yields a call wins. The two JSON conventions fall through to the next convention
    when their object does not decode; the other two always yield a call once they match. */
module Extract {
  import opened Wrappers
  import opened Text
  import opened Json
  import opened Patterns

  /** What `parse_tool_call` returns: the tool name (`Null` for `None`), the arguments (`NoneValue`
      for `None`) and the whole matched text (empty when nothing was found). */
  datatype ToolCall = ToolCall(name: Value, arguments: Json, raw: string)

  const NotFound := ToolCall(Null, NoneValue, "")

  /** `{"raw": text}`: arguments kept as unparsed text. */
  function Raw(text: string): Json {
    Object([("raw", Str(text))])
  }

  /** The order in which the conventions are tried. */
  function Rank(pat: Pattern): nat {
    match pat
    case ToolCallTag => 0
    case BareObject => 1
    case CallSyntax => 2
    case FunctionTag => 3
  }

  /** Whether the match `m` of `pat` yields a call: the JSON payload of the first two conventions
      must decode to an object. */
  predicate Accepts(pat: Pattern, dec: Decoder, s: string, m: Match) {
    && WellFormed(s, m)
    && match pat
       case ToolCallTag => LoadsObject(dec, Slice(s, m.group1)).Some?
       case BareObject => LoadsObject(dec, Slice(s, m.group2)).Some?
       case _ => true
  }

  /** `t.startswith('{')`. */
  predicate OpensObject(t: string) {
    t != [] && t[0] == '{'
  }

  /** The arguments of convention 3: the text in parentheses is decoded only when, stripped, it
      opens an object; otherwise, or when it does not decode, it is kept as raw text. Either way
      the result is a dict. */
  function CallArguments(dec: Decoder, args: string): (r: Json)
    ensures r.Object?
    ensures r != Raw(args) ==> OpensObject(Strip(args)) && dec(args) == Some(r)
    ensures !OpensObject(Strip(args)) || dec(args).None? ==> r == Raw(args)
    ensures OpensObject(Strip(args)) && dec(args).Some? && dec(args).value.Object? ==> r == dec(args).value
  {
    if OpensObject(Strip(args)) then
      match LoadsObject(dec, args)
      case Some(d) => Object(d)
      case None => Raw(args)
    else Raw(args)
  }

  /** The arguments of convention 4: the stripped body, decoded; an empty body gives `{}` and a body
      that does not decode is kept as raw text. */
  function TagArguments(dec: Decoder, body: string): (r: Json)
    ensures Strip(body) == [] ==> r == Object([])
    ensures Strip(body) != [] ==> dec(Strip(body)) == Some(r) || (dec(Strip(body)).None? && r == Raw(Strip(body)))
  {
    var t := Strip(body);
    if t == [] then Object([])
    else
      match dec(t)
      case Some(j) => j
      case None => Raw(t)
  }

  /** The call that an accepted match yields. */
  function Build(pat: Pattern, dec: Decoder, s: string, m: Match): (r: ToolCall)
    requires Accepts(pat, dec, s, m)
    ensures r.raw == s[m.start..m.end] && r.raw != []
    ensures pat == ToolCallTag ==>
      var d := LoadsObject(dec, Slice(s, m.group1)).value;
      && (HasKey(d, "name") ==> ("name", r.name) in d)
      && (!HasKey(d, "name") ==> r.name == Null)
      && (HasKey(d, "arguments") ==> r.arguments.Scalar? && ("arguments", r.arguments.value) in d)
      && (!HasKey(d, "arguments") ==> r.arguments == Object([]))
    ensures pat != ToolCallTag ==> r.name == Str(Slice(s, m.group1))
    ensures pat == BareObject ==> dec(Slice(s, m.group2)) == Some(r.arguments)
    ensures pat == CallSyntax ==> r.arguments == CallArguments(dec, Slice(s, m.group2))
    ensures pat == FunctionTag ==> r.arguments == TagArguments(dec, Slice(s, m.group2))
  {
    var raw := s[m.start..m.end];
    match pat
    case ToolCallTag =>
      var d := LoadsObject(dec, Slice(s, m.group1)).value;
      var args := match Get(d, "arguments") case Some(v) => Scalar(v) case None => Object([]);
      ToolCall(Get(d, "name").GetOr(Null), args, raw)
    case BareObject =>
      var d := LoadsObject(dec, Slice(s, m.group2)).value;
      ToolCall(Str(Slice(s, m.group1)), Object(d), raw)
    case CallSyntax =>
      ToolCall(Str(Slice(s, m.group1)), CallArguments(dec, Slice(s, m.group2)), raw)
    case FunctionTag =>
      ToolCall(Str(Slice(s, m.group1)), TagArguments(dec, Slice(s, m.group2)), raw)
  }

  /** One convention's attempt: its leftmost match, if that match yields a call. */
  function Attempt(pat: Pattern, dec: Decoder, s: string): Option<ToolCall> {
    match Search(pat, s, 0)
    case None => None
    case Some(m) => if Accepts(pat, dec, s, m) then Some(Build(pat, dec, s, m)) else None
  }

  /** An attempt is decided by the leftmost match alone: it yields the call of that match when the
      match is accepted, and nothing exactly when there is no accepted leftmost match. */
  lemma {:induction false} AttemptMeaning(pat: Pattern, dec: Decoder, s: string)
    ensures forall m: Match :: Leftmost(pat, s, m) && Accepts(pat, dec, s, m) ==> Attempt(pat, dec, s) == Some(Build(pat, dec, s, m))
    ensures Attempt(pat, dec, s).None? <==> forall m: Match :: Leftmost(pat, s, m) ==> !Accepts(pat, dec, s, m)
  {
    SearchIsLeftmost(pat, s);
  }

  /** A call that an attempt yields is the non-empty text of a match in `s`, and the name of
      conventions 2 to 4 is a non-empty string. */
  lemma {:induction false} AttemptFound(pat: Pattern, dec: Decoder, s: string, r: ToolCall)
    requires Attempt(pat, dec, s) == Some(r)
    ensures r.raw != [] && Contains(s, r.raw)
    ensures pat != ToolCallTag ==> r.name.Str? && r.name.s != []
  {
    var m := Search(pat, s, 0).value;
    MatchedName(pat, s, m.start, m);
    SliceContained(s, m.start, m.end);
  }

  /** The name group of a match of conventions 2 to 4 is never empty. */
  lemma {:induction false} MatchedName(pat: Pattern, s: string, i: nat, m: Match)
    requires MatchAt(pat, s, i) == Some(m)
    ensures pat != ToolCallTag ==> m.group1.lo < m.group1.hi
  {
    MatchAtSound(pat, s, i, m);
    NameGroupNonEmpty(pat, s, m);
  }

  /** The name group of conventions 2 to 4 is never empty. */
  lemma {:induction false} NameGroupNonEmpty(pat: Pattern, s: string, m: Match)
    requires Shape(pat, s, m)
    ensures pat != ToolCallTag ==> m.group1.lo < m.group1.hi
  {
    match pat
    case BareObject =>
      var p: nat :| BareObjectWithKey(s, m, p) && NoLaterKey(s, m.start, p);
    case CallSyntax =>
      var k: nat :| CallShapeWith(s, m, k);
    case _ =>
  }

  /** `parse_tool_call`: the empty result exactly when no convention yields a call; otherwise the
      call of one of them, whose matched text is non-empty text of `s`. */
  function ParseToolCall(dec: Decoder, s: string): (r: ToolCall)
    ensures r == NotFound <==> forall pat: Pattern :: Attempt(pat, dec, s).None?
    ensures r != NotFound ==> r.raw != [] && Contains(s, r.raw)
  {
    var first := Attempt(ToolCallTag, dec, s);
    if first.Some? then AttemptFound(ToolCallTag, dec, s, first.value); first.value
    else
      var second := Attempt(BareObject, dec, s);
      if second.Some? then AttemptFound(BareObject, dec, s, second.value); second.value
      else
        var third := Attempt(CallSyntax, dec, s);
        if third.Some? then AttemptFound(CallSyntax, dec, s, third.value); third.value
        else
          var fourth := Attempt(FunctionTag, dec, s);
          if fourth.Some? then AttemptFound(FunctionTag, dec, s, fourth.value); fourth.value else NotFound
  }

  /** The first convention whose attempt succeeds, when one does. */
  function FirstAttempt(dec: Decoder, s: string): (pat: Pattern)
    requires exists p: Pattern :: Attempt(p, dec, s).Some?
    ensures Attempt(pat, dec, s).Some?
    ensures forall earlier: Pattern :: Rank(earlier) < Rank(pat) ==> Attempt(earlier, dec, s).None?
  {
    if Attempt(ToolCallTag, dec, s).Some? then ToolCallTag
    else if Attempt(BareObject, dec, s).Some? then BareObject
    else if Attempt(CallSyntax, dec, s).Some? then CallSyntax
    else FunctionTag
  }

  /** `parse_tool_call` returns the call of the first convention whose attempt succeeds. */
  lemma {:induction false} ParseToolCallFirst(dec: Decoder, s: string)
    ensures (exists pat: Pattern :: Attempt(pat, dec, s).Some?) ==>
      Attempt(FirstAttempt(dec, s), dec, s) == Some(ParseToolCall(dec, s))
  {
  }

  /** The convention `pat` decides the outcome with its leftmost match `m`: `m` yields a call, and
      no convention tried before it does. */
  ghost predicate Decides(pat: Pattern, dec: Decoder, s: string, m: Match) {
    && Leftmost(pat, s, m) && Accepts(pat, dec, s, m)
    && forall earlier: Pattern, m': Match :: Rank(earlier) < Rank(pat) && Leftmost(earlier, s, m') ==> !Accepts(earlier, dec, s, m')
  }

  /** When every convention tried before `pat` fails and `pat` succeeds, `pat` decides the outcome. */
  lemma {:induction false} AttemptDecides(pat: Pattern, dec: Decoder, s: string, r: ToolCall)
    requires Attempt(pat, dec, s) == Some(r)
    requires forall earlier: Pattern :: Rank(earlier) < Rank(pat) ==> Attempt(earlier, dec, s).None?
    ensures exists m: Match :: Decides(pat, dec, s, m) && r == Build(pat, dec, s, m)
  {
    SearchIsLeftmost(pat, s);
    var m := Search(pat, s, 0).value;
    forall earlier: Pattern, m': Match | Rank(earlier) < Rank(pat) && Leftmost(earlier, s, m')
      ensures !Accepts(earlier, dec, s, m')
    {
      AttemptMeaning(earlier, dec, s);
    }
    assert Decides(pat, dec, s, m);
  }

  /** `parse_tool_call` finds nothing exactly when no convention's leftmost match yields a call. */
  lemma {:induction false} ParseToolCallNotFound(dec: Decoder, s: string)
    ensures ParseToolCall(dec, s) == NotFound <==>
      forall pat: Pattern, m: Match :: Leftmost(pat, s, m) ==> !Accepts(pat, dec, s, m)
  {
    ParseToolCallFirst(dec, s);
    NoAttemptSucceeds(dec, s);
  }

  /** Every attempt fails exactly when no convention's leftmost match yields a call. */
  lemma {:induction false} NoAttemptSucceeds(dec: Decoder, s: string)
    ensures (forall pat: Pattern :: Attempt(pat, dec, s).None?) <==>
      forall pat: Pattern, m: Match :: Leftmost(pat, s, m) ==> !Accepts(pat, dec, s, m)
  {
    if forall pat: Pattern :: Attempt(pat, dec, s).None? {
      forall pat: Pattern, m: Match | Leftmost(pat, s, m)
        ensures !Accepts(pat, dec, s, m)
      {
        AttemptMeaning(pat, dec, s);
      }
    } else {
      var pat: Pattern :| Attempt(pat, dec, s).Some?;
      AttemptMeaning(pat, dec, s);
    }
  }

  /** What `parse_tool_call` finds is the call yielded by the first convention whose leftmost
      match yields one. */
  lemma {:induction false} ParseToolCallFound(dec: Decoder, s: string)
    ensures ParseToolCall(dec, s) != NotFound ==>
      exists pat: Pattern, m: Match :: Decides(pat, dec, s, m) && ParseToolCall(dec, s) == Build(pat, dec, s, m)
  {
    ParseToolCallFirst(dec, s);
    var r := ParseToolCall(dec, s);
    if r != NotFound {
      var pat := FirstAttempt(dec, s);
      AttemptDecides(pat, dec, s, r);
      var m: Match :| Decides(pat, dec, s, m) && r == Build(pat, dec, s, m);
    }
  }

  // ---------------------------------------------------------------------------------------------
  // A tool-call tag whose arguments are a nested object

  /** The nested arguments object of the example. */
  const NestedArgs := "{\"k\":\"v\"}"

  /** The name value of the example, after the `"name"` key. */
  const NestedValue := ":\"f\","

  /** `{"name":"f","arguments":{"k":"v"}}`. */
  const NestedObject := "{" + NameKey + NestedValue + ArgumentsKey + ":" + NestedArgs + "}"

  /** `<tool_call={"name":"f","arguments":{"k":"v"}}>`. */
  const NestedCall := "<tool_call=" + NestedObject + ">"

  /** Convention 1 cannot read a payload holding a nested object: its `[^}]+` run stops at the
      nested `}`, and `>` does not follow. The bare-object convention then reads the whole object
      inside the tag, with the nested object as its arguments. */
  lemma NestedArgumentsFallThrough(dec: Decoder, d: Dict)
    requires dec(NestedArgs) == Some(Object(d))
    ensures Attempt(ToolCallTag, dec, NestedCall).None?
    ensures ParseToolCall(dec, NestedCall) == ToolCall(Str("f"), Object(d), NestedObject)
  {
    NoToolCallTag();
    NestedObjectFound();
    NestedGroups();
    var m := Match(11, 45, Span(20, 21), Span(35, 44));
    assert Accepts(BareObject, dec, NestedCall, m);
    assert Attempt(BareObject, dec, NestedCall) == Some(ToolCall(Str("f"), Object(d), NestedObject));
  }

  /** The groups and the whole text of the example's bare-object match. */
  lemma NestedGroups()
    ensures Slice(NestedCall, Span(20, 21)) == "f"
    ensures Slice(NestedCall, Span(35, 44)) == NestedArgs
    ensures NestedCall[11..45] == NestedObject
  {
    NestedCallChars();
    assert NestedCall[20] == NestedCall[18..23][2] == 'f';
  }

  /** The bare-object search finds the object inside the tag. */
  lemma NestedObjectFound()
    ensures Search(BareObject, NestedCall, 0) == Some(Match(11, 45, Span(20, 21), Span(35, 44)))
  {
    NestedCallChars();
    NestedBareObject(NestedCall);
    assert MatchAt(BareObject, NestedCall, 11).Some?;
  }

  /** The layout of the example: the tag opener, then the object from 11 with its `"name"` key at 12,
      its `"arguments"` key at 23 and its nested object at 35, then `>`. */
  predicate NestedLayout(s: string) {
    && |s| == 46
    && s[0..11] == "<tool_call=" && s[11] == '{'
    && s[12..18] == NameKey && s[18..23] == NestedValue
    && s[23..34] == ArgumentsKey && s[34] == ':'
    && s[35..44] == NestedArgs && s[44] == '}' && s[45] == '>'
  }

  /** The example has that layout. */
  lemma NestedCallChars()
    ensures NestedLayout(NestedCall)
    ensures NestedCall[11..45] == NestedObject
  {
  }

  /** The example holds no tool-call tag. */
  lemma NoToolCallTag()
    ensures Search(ToolCallTag, NestedCall, 0).None?
  {
    NestedCallChars();
    NoTagAfterStart(NestedCall);
    NoTagAtStart(NestedCall);
  }

  /** The tag opener occurs only at the start. */
  lemma NoTagAfterStart(s: string)
    requires NestedLayout(s)
    ensures forall i: nat :: 0 < i ==> !OccursAt(s, ToolCallOpen, i)
  {
    assert forall i :: 1 <= i < 46 ==> s[i] != '<' by {
      forall i | 1 <= i < 46 ensures s[i] != '<' {
        if i < 11 {
          assert s[i] == s[0..11][i];
        } else if 12 <= i < 18 {
          assert s[i] == s[12..18][i - 12];
        } else if 18 <= i < 23 {
          assert s[i] == s[18..23][i - 18];
        } else if 23 <= i < 34 {
          assert s[i] == s[23..34][i - 23];
        } else if 35 <= i < 44 {
          assert s[i] == s[35..44][i - 35];
        }
      }
    }
    forall i: nat | 0 < i && OccursAt(s, ToolCallOpen, i) ensures false {
      assert s[i] == s[i..i + 12][0];
    }
  }

  /** At the start, the payload's `[^}]+` run stops at the nested object's `}`, and `}` follows it,
      not `>`. */
  lemma NoTagAtStart(s: string)
    requires NestedLayout(s)
    ensures ToolCallTagAt(s, 0).None?
  {
    assert All(s, 12, 43, NotCloseBrace) by {
      forall i | 12 <= i < 43 ensures s[i] != '}' {
        if i < 18 {
          assert s[i] == s[12..18][i - 12];
        } else if i < 23 {
          assert s[i] == s[18..23][i - 18];
        } else if i < 34 {
          assert s[i] == s[23..34][i - 23];
        } else if 35 <= i {
          assert s[i] == s[35..44][i - 35];
        }
      }
    }
    assert s[43] == s[35..44][8];
    RunUnique(s, 12, 43, NotCloseBrace);
  }

  /** The bare object of the example starts at 11 and nothing opens an object before it. */
  lemma NestedBareObject(s: string)
    requires NestedLayout(s)
    ensures forall i :: 0 <= i < 11 ==> BareObjectAt(s, i).None?
    ensures BareObjectAt(s, 11) == Some(Match(11, 45, Span(20, 21), Span(35, 44)))
  {
    var m := Match(11, 45, Span(20, 21), Span(35, 44));
    NestedHead(s);
    NestedName(s);
    NestedTail(s);
    RunUnique(s, 12, 35, NotBrace);
    ObjectFromComplete(s, 11, 12, m);
    NoLaterNameKey(s);
    LastSomeAt(ObjectsAt(s, 11), 11, 35, 12, m);
  }

  /** No `{` before the object, one at 11, and none up to the nested object at 35. */
  lemma NestedHead(s: string)
    requires NestedLayout(s)
    ensures forall i :: 0 <= i < 11 ==> s[i] != '{'
    ensures s[35] == '{'
    ensures All(s, 12, 35, NotBrace)
  {
    assert forall i :: 0 <= i < 11 ==> s[i] == s[0..11][i];
    assert s[35] == s[35..44][0];
    forall i | 12 <= i < 35 ensures NotBrace(s[i]) {
      if i < 18 {
        assert s[i] == s[12..18][i - 12];
      } else if i < 23 {
        assert s[i] == s[18..23][i - 18];
      } else if i < 34 {
        assert s[i] == s[23..34][i - 23];
      }
    }
  }

  /** The `"name"` key at 12 introduces `f`. */
  lemma NestedName(s: string)
    requires NestedLayout(s)
    ensures NameValue(s, 12, Span(20, 21))
  {
    assert s[18] == s[18..23][0] && s[19] == s[18..23][1] && s[20] == s[18..23][2] && s[21] == s[18..23][3];
  }

  /** After the name value: the `"arguments"` key at 23, the nested object and the closing brace. */
  lemma NestedTail(s: string)
    requires NestedLayout(s)
    ensures ArgumentsTail(s, 22, Span(35, 44), 45)
  {
    assert s[22] == s[18..23][4];
    assert KeyAt(s, 22, 23, 35, ArgumentsKey);
    assert forall i :: 35 <= i < 44 ==> s[i] == s[35..44][i - 35];
    assert ObjectClose(s, Span(35, 44), 45);
  }

  /** No `"name"` key starts after 12 inside the object's leading brace-free text. */
  lemma NoLaterNameKey(s: string)
    requires NestedLayout(s)
    ensures forall q :: 12 < q <= 35 ==> ObjectsAt(s, 11)(q).None?
  {
    forall q | 12 < q <= 35 ensures s[q] != '"' || s[q + 1] != 'n' {
      if q < 17 {
        assert s[q + 1] == s[12..18][q - 11];
      } else if q < 22 {
        assert s[q + 1] == s[18..23][q - 17];
      } else if q == 22 {
        assert s[q] == s[18..23][4];
      } else if q < 33 {
        assert s[q + 1] == s[23..34][q - 22];
        assert s[q] == s[23..34][q - 23];
      } else if q == 35 {
        assert s[q] == s[35..44][0];
      }
    }
    forall q | 12 < q <= 35 ensures !OccursAt(s, NameKey, q) {
      assert q + 6 <= |s| ==> s[q..q + 6][0] == s[q] && s[q..q + 6][1] == s[q + 1];
    }
  }
}
