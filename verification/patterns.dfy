/** The four textual conventions the extractor recognises, as hand-written scanners with the meaning
    of Python's `re.search`: the leftmost position where the pattern matches wins, and at that position
    the pattern's greedy runs decide the groups.

    Each convention has a declarative shape (`...Shape`) that says which spans of the text form a
    match, and a scanner (`...At`) that is proved to find exactly the shaped match starting at a
    position. */
module Patterns {
  import opened Wrappers
  import opened Text

  /** The half-open index range `lo..hi` of the searched text. */
  datatype Span = Span(lo: nat, hi: nat)

  /** A successful match: the range of the whole match and of its first and second groups
      (a convention with one group leaves `group2` as `NoGroup`). */
  datatype Match = Match(start: nat, end: nat, group1: Span, group2: Span)

  const NoGroup := Span(0, 0)

  /** The four conventions, in the order the extractor tries them. */
  datatype Pattern =
    | ToolCallTag   // `<tool_call=` then a brace-delimited payload with no inner `}`, then `>`
    | BareObject    // a `{...}` object holding a quoted "name" string and a flat "arguments" object
    | CallSyntax    // `tool_call` or `function_call` (any case), separators, `name(args)`
    | FunctionTag   // `<function=name>body</function>` with no `<` in the body

  predicate InText(s: string, sp: Span) {
    sp.lo <= sp.hi <= |s|
  }

  predicate WellFormed(s: string, m: Match) {
    m.start < m.end <= |s| && InText(s, m.group1) && InText(s, m.group2)
  }

  function Slice(s: string, sp: Span): string
    requires InText(s, sp)
  {
    s[sp.lo..sp.hi]
  }

  predicate NotCloseBrace(c: char) { c != '}' }
  predicate NotBrace(c: char) { c != '{' && c != '}' }
  predicate NotQuote(c: char) { c != '"' }
  predicate NotCloseParen(c: char) { c != ')' }
  predicate NotOpenAngle(c: char) { c != '<' }
  predicate IsSeparator(c: char) { c == ':' || IsSpace(c) }

  // ---------------------------------------------------------------------------------------------
  // Convention 1: `<tool_call={...}>`

  const ToolCallOpen := "<tool_call={"

  /** `m` spans the opener, a non-empty run of characters other than `}`, then `}>`; its group is
      the payload from the `{` to the `}` inclusive. */
  predicate ToolCallTagShape(s: string, m: Match) {
    && OccursAt(s, ToolCallOpen, m.start)
    && m.start + 13 <= m.end - 2
    && m.end <= |s|
    && All(s, m.start + 12, m.end - 2, NotCloseBrace)
    && s[m.end - 2] == '}' && s[m.end - 1] == '>'
    && m.group1 == Span(m.start + 11, m.end - 1)
    && m.group2 == NoGroup
  }

  /** The tool-call tag starting at `i`, if any. */
  function ToolCallTagAt(s: string, i: nat): Option<Match> {
    if !OccursAt(s, ToolCallOpen, i) then None
    else
      var j := Run(s, i + 12, NotCloseBrace);
      if i + 12 < j && j + 1 < |s| && s[j + 1] == '>' then
        Some(Match(i, j + 2, Span(i + 11, j + 1), NoGroup))
      else None
  }

  /** `ToolCallTagAt` finds exactly the tool-call tags that start at `i`. */
  lemma {:induction false} ToolCallTagMeaning(s: string, i: nat, m: Match)
    ensures ToolCallTagAt(s, i) == Some(m) <==> m.start == i && ToolCallTagShape(s, m)
  {
    if m.start == i && ToolCallTagShape(s, m) {
      RunUnique(s, m.start + 12, m.end - 2, NotCloseBrace);
    }
  }

  // ---------------------------------------------------------------------------------------------
  // Convention 2: a bare `{"name": "...", "arguments": {...}}` object

  const NameKey := "\"name\""
  const ArgumentsKey := "\"arguments\""

  /** `s[lo..hi]` is spaces, one colon, spaces. */
  predicate ColonGap(s: string, lo: nat, hi: nat) {
    lo <= hi <= |s| &&
    var c := Run(s, lo, IsSpace);
    c < hi && s[c] == ':' && All(s, c + 1, hi, IsSpace)
  }

  /** The quoted key `key` starts at `k` and is followed by a colon gap that ends at `hi`;
      `s[lo..k]` holds no braces. */
  predicate KeyAt(s: string, lo: nat, k: nat, hi: nat, key: string) {
    && lo <= k
    && All(s, lo, k, NotBrace)
    && OccursAt(s, key, k)
    && ColonGap(s, k + |key|, hi)
  }

  /** `s[lo..hi]` is brace-free text ending in the quoted key `key` and a colon gap. */
  ghost predicate KeyBefore(s: string, lo: nat, hi: nat, key: string) {
    exists k: nat :: KeyAt(s, lo, k, hi, key)
  }

  /** The `"name"` key starts at `p` and introduces a non-empty quoted string without inner quotes
      whose contents span `sp`. */
  predicate NameValue(s: string, p: nat, sp: Span) {
    && 1 <= sp.lo < sp.hi < |s|
    && OccursAt(s, NameKey, p)
    && ColonGap(s, p + |NameKey|, sp.lo - 1)
    && s[sp.lo - 1] == '"'
    && All(s, sp.lo, sp.hi, NotQuote)
    && s[sp.hi] == '"'
  }

  /** A flat `{...}` object spanning `args`, then brace-free text and a `}` just before `end`. */
  predicate ObjectClose(s: string, args: Span, end: nat) {
    && args.lo + 2 <= args.hi < end <= |s|
    && s[args.lo] == '{'
    && All(s, args.lo + 1, args.hi - 1, NotBrace)
    && s[args.hi - 1] == '}'
    && All(s, args.hi, end - 1, NotBrace)
    && s[end - 1] == '}'
  }

  /** From `lo`: brace-free text ending in `"arguments"` and a colon gap, then the flat arguments
      object and the end of the enclosing object. */
  ghost predicate ArgumentsTail(s: string, lo: nat, args: Span, end: nat) {
    KeyBefore(s, lo, args.lo, ArgumentsKey) && ObjectClose(s, args, end)
  }

  /** With the `{` at `a`, the `"name"` key of the object starts at `p`: only brace-free text lies between. */
  predicate NameKeyAt(s: string, a: nat, p: nat, name: Span) {
    a < p && All(s, a + 1, p, NotBrace) && NameValue(s, p, name)
  }

  /** `m` spans `{`, brace-free text, the `"name"` key at `p`, a colon gap, a non-empty quoted string
      without inner quotes (group 1 is its contents), brace-free text, `"arguments"`, a colon gap, a
      flat `{...}` object (group 2), brace-free text and the closing `}`. */
  ghost predicate BareObjectWithKey(s: string, m: Match, p: nat) {
    && m.start < |s| && s[m.start] == '{'
    && NameKeyAt(s, m.start, p, m.group1)
    && ArgumentsTail(s, m.group1.hi + 1, m.group2, m.end)
  }

  /** No object starting at `a` has its `"name"` key after `p`. */
  ghost predicate NoLaterKey(s: string, a: nat, p: nat) {
    forall q: nat, m: Match :: p < q && m.start == a ==> !BareObjectWithKey(s, m, q)
  }

  /** The match of the bare-object pattern: the leading brace-free run is greedy, so among the
      objects starting at the same `{` the one whose `"name"` key comes last is taken. */
  ghost predicate BareObjectShape(s: string, m: Match) {
    exists p: nat :: BareObjectWithKey(s, m, p) && NoLaterKey(s, m.start, p)
  }

  /** The quoted key that ends, with its colon gap, at `hi`, found by scanning backwards. */
  function KeyBack(s: string, lo: nat, hi: nat, key: string): Option<nat>
    requires lo <= hi <= |s|
  {
    var c := RunBack(s, lo, hi, IsSpace);
    if lo < c && s[c - 1] == ':' then
      var e := RunBack(s, lo, c - 1, IsSpace);
      if lo + |key| <= e && OccursAt(s, key, e - |key|) && All(s, lo, e - |key|, NotBrace) then Some(e - |key|)
      else None
    else None
  }

  /** What `KeyBack` finds is a key with its colon gap ending at `hi`. */
  lemma {:induction false} KeyBackSound(s: string, lo: nat, hi: nat, key: string, k: nat)
    requires lo <= hi <= |s| && KeyBack(s, lo, hi, key) == Some(k)
    ensures KeyAt(s, lo, k, hi, key)
  {
    var c := RunBack(s, lo, hi, IsSpace);
    RunUnique(s, k + |key|, c - 1, IsSpace);
  }

  /** A key that ends in a quote is found by `KeyBack` wherever it stands. */
  lemma {:induction false} KeyBackComplete(s: string, lo: nat, k: nat, hi: nat, key: string)
    requires key != [] && key[|key| - 1] == '"'
    requires KeyAt(s, lo, k, hi, key)
    ensures KeyBack(s, lo, hi, key) == Some(k)
  {
    var colon := Run(s, k + |key|, IsSpace);
    RunBackUnique(s, lo, colon + 1, hi, IsSpace);
    assert s[k + |key| - 1] == key[|key| - 1];
    RunBackUnique(s, lo, k + |key|, colon, IsSpace);
  }

  /** The quoted name value introduced by a `"name"` key at `p`. */
  function NameValueAt(s: string, p: nat): Option<Span>
    requires p <= |s|
  {
    if !OccursAt(s, NameKey, p) then None
    else
      var colon := Run(s, p + |NameKey|, IsSpace);
      if colon < |s| && s[colon] == ':' then
        var o := Run(s, colon + 1, IsSpace);
        if o < |s| && s[o] == '"' then
          var q := Run(s, o + 1, NotQuote);
          if o + 1 < q < |s| then Some(Span(o + 1, q)) else None
        else None
      else None
  }

  /** `NameValueAt` finds exactly the name value after a `"name"` key at `p`. */
  lemma {:induction false} NameValueMeaning(s: string, p: nat, sp: Span)
    requires p <= |s|
    ensures NameValueAt(s, p) == Some(sp) <==> NameValue(s, p, sp)
  {
    if NameValue(s, p, sp) {
      var colon := Run(s, p + |NameKey|, IsSpace);
      RunUnique(s, colon + 1, sp.lo - 1, IsSpace);
      RunUnique(s, sp.lo, sp.hi, NotQuote);
    }
  }

  /** The flat object opening at `b` and the end of the enclosing object. */
  function ObjectCloseAt(s: string, b: nat): Option<(Span, nat)>
    requires b < |s| && s[b] == '{'
  {
    var c := Run(s, b + 1, NotBrace);
    if c < |s| && s[c] == '}' then
      var d := Run(s, c + 1, NotBrace);
      if d < |s| && s[d] == '}' then Some((Span(b, c + 1), d + 1)) else None
    else None
  }

  /** `ObjectCloseAt` finds exactly the flat object opening at `b` and the close after it. */
  lemma {:induction false} ObjectCloseMeaning(s: string, b: nat, args: Span, end: nat)
    requires b < |s| && s[b] == '{'
    ensures ObjectCloseAt(s, b) == Some((args, end)) <==> args.lo == b && ObjectClose(s, args, end)
  {
    if args.lo == b && ObjectClose(s, args, end) {
      RunUnique(s, args.lo + 1, args.hi - 1, NotBrace);
      RunUnique(s, args.hi, end - 1, NotBrace);
    }
  }

  /** The tail of the object after the name value's closing quote at `lo - 1`. */
  function ArgumentsTailFrom(s: string, lo: nat): Option<(Span, nat)>
    requires lo <= |s|
  {
    var b := Run(s, lo, NotBrace);
    if b < |s| && s[b] == '{' && KeyBack(s, lo, b, ArgumentsKey).Some? then ObjectCloseAt(s, b) else None
  }

  /** What `ArgumentsTailFrom` finds is an arguments tail. */
  lemma {:induction false} ArgumentsTailSound(s: string, lo: nat, args: Span, end: nat)
    requires lo <= |s| && ArgumentsTailFrom(s, lo) == Some((args, end))
    ensures ArgumentsTail(s, lo, args, end)
  {
    var b := Run(s, lo, NotBrace);
    var k := KeyBack(s, lo, b, ArgumentsKey).value;
    KeyBackSound(s, lo, b, ArgumentsKey, k);
    ObjectCloseMeaning(s, b, args, end);
    assert KeyAt(s, lo, k, args.lo, ArgumentsKey);
  }

  /** A quoted key without braces and its colon gap add no brace to the brace-free text before it. */
  lemma {:induction false} KeyAtBraceFree(s: string, lo: nat, k: nat, hi: nat, key: string)
    requires KeyAt(s, lo, k, hi, key)
    requires forall j :: 0 <= j < |key| ==> NotBrace(key[j])
    ensures All(s, lo, hi, NotBrace)
  {
    var colon := Run(s, k + |key|, IsSpace);
    forall j | lo <= j < hi ensures NotBrace(s[j]) {
      if k <= j < k + |key| {
        assert s[j] == key[j - k];
      } else if k + |key| <= j < colon {
        assert IsSpace(s[j]);
      } else if colon < j {
        assert IsSpace(s[j]);
      }
    }
  }

  /** The tail is determined by where it starts. */
  lemma {:induction false} ArgumentsTailComplete(s: string, lo: nat, args: Span, end: nat)
    requires lo <= |s|
    requires ArgumentsTail(s, lo, args, end)
    ensures ArgumentsTailFrom(s, lo) == Some((args, end))
  {
    var k: nat :| KeyAt(s, lo, k, args.lo, ArgumentsKey);
    ArgumentsKeyEndsRun(s, lo, k, args.lo);
    KeyBackComplete(s, lo, k, args.lo, ArgumentsKey);
    ObjectCloseMeaning(s, args.lo, args, end);
  }

  /** The brace-free run from `lo` stops at the `{` that follows the `"arguments"` key. */
  lemma {:induction false} ArgumentsKeyEndsRun(s: string, lo: nat, k: nat, b: nat)
    requires lo <= |s|
    requires KeyAt(s, lo, k, b, ArgumentsKey)
    requires b < |s| && s[b] == '{'
    ensures Run(s, lo, NotBrace) == b
  {
    assert forall j :: 0 <= j < |ArgumentsKey| ==> NotBrace(ArgumentsKey[j]);
    KeyAtBraceFree(s, lo, k, b, ArgumentsKey);
    RunUnique(s, lo, b, NotBrace);
  }

  /** The object whose `"name"` key starts at `p`, for a match starting at `a`. */
  function ObjectFrom(s: string, a: nat, p: nat): Option<Match>
    requires p <= |s|
  {
    var name := NameValueAt(s, p);
    if name.None? then None
    else
      var tail := ArgumentsTailFrom(s, name.value.hi + 1);
      if tail.None? then None
      else Some(Match(a, tail.value.1, name.value, tail.value.0))
  }

  /** What `ObjectFrom` builds is a name value at `p` followed by an arguments tail. */
  lemma {:induction false} ObjectFromSound(s: string, a: nat, p: nat, m: Match)
    requires p <= |s| && ObjectFrom(s, a, p) == Some(m)
    ensures m.start == a && NameValue(s, p, m.group1)
    ensures ArgumentsTail(s, m.group1.hi + 1, m.group2, m.end)
  {
    ObjectFromParts(s, a, p, m);
    PartsSound(s, p, m);
  }

  /** The name value and the tail that the scanners find are a name value and a tail. */
  lemma {:induction false} PartsSound(s: string, p: nat, m: Match)
    requires p <= |s| && NameValueAt(s, p) == Some(m.group1)
    requires m.group1.hi + 1 <= |s| && ArgumentsTailFrom(s, m.group1.hi + 1) == Some((m.group2, m.end))
    ensures NameValue(s, p, m.group1)
    ensures ArgumentsTail(s, m.group1.hi + 1, m.group2, m.end)
  {
    NameValueMeaning(s, p, m.group1);
    ArgumentsTailSound(s, m.group1.hi + 1, m.group2, m.end);
  }

  /** What `ObjectFrom` builds is the name value at `p` and the tail after it. */
  lemma {:induction false} ObjectFromParts(s: string, a: nat, p: nat, m: Match)
    requires p <= |s| && ObjectFrom(s, a, p) == Some(m)
    ensures m.start == a && NameValueAt(s, p) == Some(m.group1)
    ensures m.group1.hi + 1 <= |s| && ArgumentsTailFrom(s, m.group1.hi + 1) == Some((m.group2, m.end))
  {
  }

  /** Given the position of its `"name"` key, the rest of a bare object is determined. */
  lemma {:induction false} ObjectFromComplete(s: string, a: nat, p: nat, m: Match)
    requires p <= |s|
    requires m.start == a && NameValue(s, p, m.group1)
    requires ArgumentsTail(s, m.group1.hi + 1, m.group2, m.end)
    ensures ObjectFrom(s, a, p) == Some(m)
  {
    NameValueMeaning(s, p, m.group1);
    ArgumentsTailComplete(s, m.group1.hi + 1, m.group2, m.end);
  }

  /** The last index from `p` down to just after `a` where `f` yields a match, and that match. */
  function LastSome(f: nat -> Option<Match>, a: nat, p: nat): (r: Option<(nat, Match)>)
    ensures r.Some? ==> a < r.value.0 <= p && f(r.value.0) == Some(r.value.1)
    ensures r.Some? ==> forall q :: r.value.0 < q <= p ==> f(q).None?
    ensures r.None? ==> forall q :: a < q <= p ==> f(q).None?
    decreases p
  {
    if p <= a then None
    else if f(p).Some? then Some((p, f(p).value))
    else LastSome(f, a, p - 1)
  }

  /** A later index where `f` yields a match bounds the one `LastSome` finds from below. */
  lemma {:induction false} LastSomeBound(f: nat -> Option<Match>, a: nat, p: nat, q: nat)
    requires a < q <= p && f(q).Some?
    ensures LastSome(f, a, p).Some? && q <= LastSome(f, a, p).value.0
    decreases p
  {
    if q < p && f(p).None? {
      LastSomeBound(f, a, p - 1, q);
    }
  }

  /** `LastSome` yields the match at `p` when nothing later up to `hi` matches. */
  lemma {:induction false} LastSomeAt(f: nat -> Option<Match>, a: nat, hi: nat, p: nat, v: Match)
    requires a < p <= hi && f(p) == Some(v)
    requires forall q :: p < q <= hi ==> f(q).None?
    ensures LastSome(f, a, hi) == Some((p, v))
    decreases hi
  {
    if p < hi {
      LastSomeAt(f, a, hi - 1, p, v);
    }
  }

  /** The object that starts at `a`, for each position of its `"name"` key. */
  function ObjectsAt(s: string, a: nat): nat -> Option<Match> {
    (p: nat) => if p <= |s| then ObjectFrom(s, a, p) else None
  }

  /** Tries the `"name"` key at `p`, `p - 1`, ... down to just after `a`; the first that yields an
      object wins, as the backtracking of a greedy run does. */
  function NameFrom(s: string, a: nat, p: nat): Option<(nat, Match)> {
    LastSome(ObjectsAt(s, a), a, p)
  }

  /** Every object starting at `a` has its key within the brace-free run after `a`, and is the one
      `ObjectFrom` builds for that key. */
  lemma {:induction false} KeyWithinRun(s: string, a: nat, m: Match, q: nat)
    requires m.start == a && BareObjectWithKey(s, m, q)
    ensures a < q <= Run(s, a + 1, NotBrace) <= |s|
    ensures ObjectsAt(s, a)(q) == Some(m)
  {
    ObjectFromComplete(s, a, q, m);
  }

  /** Every object starting at `a` has its key no later than the one the scan stops at. */
  lemma {:induction false} KeysWithinRun(s: string, a: nat)
    ensures forall m: Match, q: nat :: m.start == a && BareObjectWithKey(s, m, q) ==>
      var found := NameFrom(s, a, Run(s, a + 1, NotBrace));
      found.Some? && q <= found.value.0
  {
    forall m: Match, q: nat | m.start == a && BareObjectWithKey(s, m, q)
      ensures var found := NameFrom(s, a, Run(s, a + 1, NotBrace)); found.Some? && q <= found.value.0
    {
      KeyWithinRun(s, a, m, q);
      LastSomeBound(ObjectsAt(s, a), a, Run(s, a + 1, NotBrace), q);
    }
  }

  /** The bare object starting at `a`, if any. */
  function BareObjectAt(s: string, a: nat): Option<Match> {
    if a >= |s| || s[a] != '{' then None
    else
      var found := NameFrom(s, a, Run(s, a + 1, NotBrace));
      if found.None? then None else Some(found.value.1)
  }

  /** What `BareObjectAt` finds is a bare object starting at `a`. */
  lemma {:induction false} BareObjectSound(s: string, a: nat, m: Match)
    requires BareObjectAt(s, a) == Some(m)
    ensures m.start == a && BareObjectShape(s, m)
  {
    var hi := Run(s, a + 1, NotBrace);
    var p := NameFrom(s, a, hi).value.0;
    NameFromObject(s, a, hi, p, m);
    KeyedObject(s, a, p, m);
    NameFromLast(s, a, p, m);
  }

  /** Every bare object is the one `BareObjectAt` finds where it starts. */
  lemma {:induction false} BareObjectComplete(s: string, m: Match)
    requires BareObjectShape(s, m)
    ensures BareObjectAt(s, m.start) == Some(m)
  {
    var a := m.start;
    var p: nat :| BareObjectWithKey(s, m, p) && NoLaterKey(s, a, p);
    NameFromKey(s, a, m, p);
    ScanFindsObject(s, a, p, m);
  }

  /** When the scan from a `{` stops at `m`, `m` is the bare object found there. */
  lemma {:induction false} ScanFindsObject(s: string, a: nat, p: nat, m: Match)
    requires a < |s| && s[a] == '{'
    requires NameFrom(s, a, Run(s, a + 1, NotBrace)) == Some((p, m))
    ensures BareObjectAt(s, a) == Some(m)
  {
  }

  /** The scan from the `{` of a bare object stops at the object's key and yields the object. */
  lemma {:induction false} NameFromKey(s: string, a: nat, m: Match, p: nat)
    requires m.start == a && BareObjectWithKey(s, m, p) && NoLaterKey(s, a, p)
    ensures a < |s| && s[a] == '{'
    ensures NameFrom(s, a, Run(s, a + 1, NotBrace)) == Some((p, m))
  {
    KeyWithinRun(s, a, m, p);
    NoObjectAfter(s, a, p);
    LastSomeAt(ObjectsAt(s, a), a, Run(s, a + 1, NotBrace), p, m);
  }

  /** No object is built at a key after the last one. */
  lemma {:induction false} NoObjectAfter(s: string, a: nat, p: nat)
    requires a < |s| && s[a] == '{' && a < p && NoLaterKey(s, a, p)
    ensures forall q :: p < q <= Run(s, a + 1, NotBrace) ==> ObjectsAt(s, a)(q).None?
  {
    forall q | p < q <= Run(s, a + 1, NotBrace)
      ensures ObjectsAt(s, a)(q).None?
    {
      if ObjectsAt(s, a)(q).Some? {
        KeyedObject(s, a, q, ObjectsAt(s, a)(q).value);
      }
    }
  }

  /** What the scan finds is the object built at a key inside the scanned range. */
  lemma {:induction false} NameFromObject(s: string, a: nat, hi: nat, p: nat, m: Match)
    requires NameFrom(s, a, hi) == Some((p, m))
    ensures a < p <= hi && p <= |s| && ObjectFrom(s, a, p) == Some(m)
  {
    assert ObjectsAt(s, a)(p) == Some(m);
  }

  /** The object built at a key inside the brace-free run after a `{` is a bare object there. */
  lemma {:induction false} KeyedObject(s: string, a: nat, p: nat, m: Match)
    requires a < |s| && s[a] == '{'
    requires a < p <= Run(s, a + 1, NotBrace) && ObjectFrom(s, a, p) == Some(m)
    ensures m.start == a && BareObjectWithKey(s, m, p)
  {
    ObjectFromSound(s, a, p, m);
    assert All(s, a + 1, p, NotBrace);
  }

  /** No object starting at `a` has a later key than the one the scan stopped at. */
  lemma {:induction false} NameFromLast(s: string, a: nat, p: nat, m: Match)
    requires a < |s| && s[a] == '{'
    requires NameFrom(s, a, Run(s, a + 1, NotBrace)) == Some((p, m))
    ensures NoLaterKey(s, a, p)
  {
    KeysWithinRun(s, a);
  }

  // ---------------------------------------------------------------------------------------------
  // Convention 3: `tool_call` or `function_call` in any case, separators, `name(args)`

  /** `t` (in lower case) occurs at `i` when case is ignored. */
  predicate CaseInsensitiveAt(s: string, t: string, i: nat) {
    i + |t| <= |s| && Lower(s[i..i + |t|]) == t
  }

  /** The keyword that opens convention 3 occupies `s[i..k]`. */
  predicate CallKeyword(s: string, i: nat, k: nat) {
    || (CaseInsensitiveAt(s, "tool_call", i) && k == i + 9)
    || (CaseInsensitiveAt(s, "function_call", i) && k == i + 13)
  }

  /** `s[n..]` begins with spaces, `(`, text without `)` (spanned by `args`) and `)`. */
  predicate ParenArgs(s: string, n: nat, args: Span) {
    && n < args.lo <= args.hi < |s|
    && All(s, n, args.lo - 1, IsSpace) && s[args.lo - 1] == '('
    && All(s, args.lo, args.hi, NotCloseParen) && s[args.hi] == ')'
  }

  /** After the keyword ending at `k`, `m` spans a non-empty run of colons and spaces, a non-empty
      word (group 1) and the parenthesised arguments (group 2). */
  predicate CallRest(s: string, m: Match, k: nat) {
    && k < m.group1.lo && All(s, k, m.group1.lo, IsSeparator)
    && m.group1.lo < m.group1.hi && All(s, m.group1.lo, m.group1.hi, IsWordChar)
    && ParenArgs(s, m.group1.hi, m.group2)
    && m.end == m.group2.hi + 1
  }

  /** `m` spans the keyword ending at `k` and a call after it. */
  predicate CallShapeWith(s: string, m: Match, k: nat) {
    CallKeyword(s, m.start, k) && CallRest(s, m, k)
  }

  ghost predicate CallSyntaxShape(s: string, m: Match) {
    exists k: nat :: CallShapeWith(s, m, k)
  }

  /** The end of the keyword at `i`, if either keyword is there (they differ in their first letter). */
  function CallKeywordAt(s: string, i: nat): (r: Option<nat>)
    ensures r.Some? ==> CallKeyword(s, i, r.value)
    ensures forall k: nat :: CallKeyword(s, i, k) ==> r == Some(k)
  {
    if CaseInsensitiveAt(s, "tool_call", i) then
      assert Lower(s[i..i + 9])[0] == LowerChar(s[i]) == 't';
      Some(i + 9)
    else if CaseInsensitiveAt(s, "function_call", i) then Some(i + 13)
    else None
  }

  /** The parenthesised arguments after the word ending at `n`. */
  function ParenArgsAt(s: string, n: nat): Option<Span>
    requires n <= |s|
  {
    var o := Run(s, n, IsSpace);
    if !(o < |s| && s[o] == '(') then None
    else
      var c := Run(s, o + 1, NotCloseParen);
      if c < |s| then Some(Span(o + 1, c)) else None
  }

  /** `ParenArgsAt` finds exactly the parenthesised arguments after the word ending at `n`. */
  lemma {:induction false} ParenArgsMeaning(s: string, n: nat, args: Span)
    requires n <= |s|
    ensures ParenArgsAt(s, n) == Some(args) <==> ParenArgs(s, n, args)
  {
    if ParenArgs(s, n, args) {
      RunUnique(s, n, args.lo - 1, IsSpace);
      RunUnique(s, args.lo, args.hi, NotCloseParen);
    }
  }

  /** The call that follows a keyword ending at `k`, for a match starting at `i`. */
  function CallFrom(s: string, i: nat, k: nat): Option<Match>
    requires k <= |s|
  {
    var w := Run(s, k, IsSeparator);
    var n := Run(s, w, IsWordChar);
    if !(k < w < n) then None
    else
      var args := ParenArgsAt(s, n);
      if args.None? then None else Some(Match(i, args.value.hi + 1, Span(w, n), args.value))
  }

  /** `CallFrom` finds exactly the call that follows a keyword ending at `k`. */
  lemma {:induction false} CallFromMeaning(s: string, i: nat, k: nat, m: Match)
    requires k <= |s|
    ensures CallFrom(s, i, k) == Some(m) <==> m.start == i && CallRest(s, m, k)
  {
    if CallFrom(s, i, k) == Some(m) {
      ParenArgsMeaning(s, m.group1.hi, m.group2);
    }
    if m.start == i && CallRest(s, m, k) {
      RunUnique(s, k, m.group1.lo, IsSeparator);
      RunUnique(s, m.group1.lo, m.group1.hi, IsWordChar);
      ParenArgsMeaning(s, m.group1.hi, m.group2);
    }
  }

  /** The call-syntax match starting at `i`, if any. */
  function CallSyntaxAt(s: string, i: nat): Option<Match> {
    var k := CallKeywordAt(s, i);
    if k.None? then None else CallFrom(s, i, k.value)
  }

  /** `CallSyntaxAt` finds exactly the call-syntax matches that start at `i`. */
  lemma {:induction false} CallSyntaxMeaning(s: string, i: nat, m: Match)
    ensures CallSyntaxAt(s, i) == Some(m) <==> m.start == i && CallSyntaxShape(s, m)
  {
    if CallSyntaxAt(s, i) == Some(m) {
      var k := CallKeywordAt(s, i).value;
      CallFromMeaning(s, i, k, m);
      assert CallShapeWith(s, m, k);
    }
    if m.start == i && CallSyntaxShape(s, m) {
      var k: nat :| CallShapeWith(s, m, k);
      CallFromMeaning(s, i, k, m);
    }
  }

  // ---------------------------------------------------------------------------------------------
  // Convention 4: `<function=name>body</function>`

  const FunctionOpen := "<function="
  const FunctionClose := "</function>"

  /** `m` spans the opener, a non-empty word (group 1), `>`, text without `<` (group 2) and the
      closing tag. */
  predicate FunctionTagShape(s: string, m: Match) {
    && OccursAt(s, FunctionOpen, m.start)
    && m.group1.lo == m.start + 10 && m.group1.lo < m.group1.hi
    && All(s, m.group1.lo, m.group1.hi, IsWordChar)
    && m.group1.hi < |s| && s[m.group1.hi] == '>'
    && m.group2.lo == m.group1.hi + 1 && m.group2.lo <= m.group2.hi
    && All(s, m.group2.lo, m.group2.hi, NotOpenAngle)
    && OccursAt(s, FunctionClose, m.group2.hi)
    && m.end == m.group2.hi + 11
  }

  /** The function tag starting at `i`, if any. */
  function FunctionTagAt(s: string, i: nat): Option<Match> {
    if !OccursAt(s, FunctionOpen, i) then None
    else
      var n := Run(s, i + 10, IsWordChar);
      if !(i + 10 < n < |s| && s[n] == '>') then None
      else
        var c := Run(s, n + 1, NotOpenAngle);
        if OccursAt(s, FunctionClose, c) then Some(Match(i, c + 11, Span(i + 10, n), Span(n + 1, c)))
        else None
  }

  /** `FunctionTagAt` finds exactly the function tags that start at `i`. */
  lemma {:induction false} FunctionTagMeaning(s: string, i: nat, m: Match)
    ensures FunctionTagAt(s, i) == Some(m) <==> m.start == i && FunctionTagShape(s, m)
  {
    if m.start == i && FunctionTagShape(s, m) {
      RunUnique(s, m.start + 10, m.group1.hi, IsWordChar);
      assert s[m.group2.hi] == s[m.group2.hi..m.group2.hi + 11][0] == '<';
      RunUnique(s, m.group1.hi + 1, m.group2.hi, NotOpenAngle);
    }
  }

  // ---------------------------------------------------------------------------------------------
  // Searching

  /** The matches of `pat` in `s`, as spans. */
  ghost predicate Shape(pat: Pattern, s: string, m: Match) {
    match pat
    case ToolCallTag => ToolCallTagShape(s, m)
    case BareObject => BareObjectShape(s, m)
    case CallSyntax => CallSyntaxShape(s, m)
    case FunctionTag => FunctionTagShape(s, m)
  }

  /** The match of `pat` starting at `i`, if any. */
  function MatchAt(pat: Pattern, s: string, i: nat): Option<Match> {
    match pat
    case ToolCallTag => ToolCallTagAt(s, i)
    case BareObject => BareObjectAt(s, i)
    case CallSyntax => CallSyntaxAt(s, i)
    case FunctionTag => FunctionTagAt(s, i)
  }

  /** What `MatchAt` finds is a match of `pat` starting at `i`. */
  lemma {:induction false} MatchAtSound(pat: Pattern, s: string, i: nat, m: Match)
    requires MatchAt(pat, s, i) == Some(m)
    ensures m.start == i && Shape(pat, s, m)
  {
    match pat
    case ToolCallTag => ToolCallTagMeaning(s, i, m);
    case BareObject => BareObjectSound(s, i, m);
    case CallSyntax => CallSyntaxMeaning(s, i, m);
    case FunctionTag => FunctionTagMeaning(s, i, m);
  }

  /** At most one match of a pattern starts at a position, and `MatchAt` finds it. */
  lemma {:induction false} MatchAtComplete(pat: Pattern, s: string, m: Match)
    requires Shape(pat, s, m)
    ensures MatchAt(pat, s, m.start) == Some(m)
  {
    match pat
    case ToolCallTag => ToolCallTagMeaning(s, m.start, m);
    case BareObject => BareObjectComplete(s, m);
    case CallSyntax => CallSyntaxMeaning(s, m.start, m);
    case FunctionTag => FunctionTagMeaning(s, m.start, m);
  }

  /** Every bare object lies inside the text, and so do its groups. */
  lemma {:induction false} BareObjectWellFormed(s: string, m: Match)
    requires BareObjectShape(s, m)
    ensures WellFormed(s, m)
  {
    var p: nat :| BareObjectWithKey(s, m, p) && NoLaterKey(s, m.start, p);
    var k: nat :| KeyAt(s, m.group1.hi + 1, k, m.group2.lo, ArgumentsKey);
  }

  /** Every call-syntax match lies inside the text, and so do its groups. */
  lemma {:induction false} CallSyntaxWellFormed(s: string, m: Match)
    requires CallSyntaxShape(s, m)
    ensures WellFormed(s, m)
  {
    var k: nat :| CallShapeWith(s, m, k);
  }

  /** Every match lies inside the text, and so do its groups. */
  lemma {:induction false} ShapeWellFormed(pat: Pattern, s: string, m: Match)
    requires Shape(pat, s, m)
    ensures WellFormed(s, m)
  {
    match pat
    case BareObject => BareObjectWellFormed(s, m);
    case CallSyntax => CallSyntaxWellFormed(s, m);
    case _ =>
  }

  /** `re.search`: the match at the first position from `from` where the pattern matches. */
  function Search(pat: Pattern, s: string, from: nat): (r: Option<Match>)
    requires from <= |s|
    ensures r.Some? ==> from <= r.value.start && MatchAt(pat, s, r.value.start) == r
    ensures r.Some? ==> forall k :: from <= k < r.value.start ==> MatchAt(pat, s, k).None?
    ensures r.None? ==> forall k :: from <= k <= |s| ==> MatchAt(pat, s, k).None?
    decreases |s| - from
  {
    var m := MatchAt(pat, s, from);
    if m.Some? then MatchAtStart(pat, s, from, m.value); m
    else if from == |s| then None
    else Search(pat, s, from + 1)
  }

  /** A match found at `i` starts at `i`. */
  lemma {:induction false} MatchAtStart(pat: Pattern, s: string, i: nat, m: Match)
    requires MatchAt(pat, s, i) == Some(m)
    ensures m.start == i
  {
    MatchAtSound(pat, s, i, m);
  }

  /** The leftmost match of `pat` in `s`. */
  ghost predicate Leftmost(pat: Pattern, s: string, m: Match) {
    Shape(pat, s, m) && forall m': Match :: Shape(pat, s, m') ==> m.start <= m'.start
  }

  /** `Search` from the start returns exactly the leftmost match, and nothing when there is no match. */
  lemma {:induction false} SearchIsLeftmost(pat: Pattern, s: string)
    ensures forall m: Match :: Search(pat, s, 0) == Some(m) <==> Leftmost(pat, s, m)
    ensures Search(pat, s, 0).None? <==> forall m: Match :: !Shape(pat, s, m)
  {
    var r := Search(pat, s, 0);
    if r.Some? {
      MatchAtSound(pat, s, r.value.start, r.value);
    }
    forall m': Match | Shape(pat, s, m') ensures r.Some? && r.value.start <= m'.start {
      ShapeWellFormed(pat, s, m');
      MatchAtComplete(pat, s, m');
    }
    forall m: Match | Leftmost(pat, s, m) ensures r == Some(m) {
      ShapeWellFormed(pat, s, m);
      MatchAtComplete(pat, s, m);
    }
  }
}
