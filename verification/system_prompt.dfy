/** `extract_system_prompt`: the body of the first `{% if message['role'] == 'system' %} ... {% endif %}`
    block of a chat template, stripped, together with the template itself.

    The pattern is read as a scanner. Each whitespace run of the opening tag is followed by a character
    that is not whitespace (`if`, `message[`, `==`, a quote, `%}`), so the greedy runs never give
    anything back (`OpenerEndMeaning` proves the scanner agrees with the declarative `OpenerShape`),
    and the only choice left to the regex engine is the lazy body, which ends at the
    first closing `{% endif %}` tag after the opening one. The run in front of the opening tag's `%}`
    is a parameter: whitespace in the intended pattern, the letter `s` in the pattern as written. */
module SystemPrompt {
  import opened Wrappers
  import opened Text

  /** `["\']`. */
  predicate IsQuote(c: char) {
    c == '"' || c == '\''
  }

  /** The run in front of `%}` as the pattern is written: `s*`, a run of the letter `s`. */
  predicate IsLetterS(c: char) {
    c == 's'
  }

  /** `{%\s*if\s+` at `i`: where `message[` must start. */
  function IfClause(s: string, i: nat): (r: Option<nat>)
    ensures r.Some? ==> i + 5 <= r.value <= |s| && OccursAt(s, "{%", i)
  {
    if !OccursAt(s, "{%", i) then None
    else
      var a := Run(s, i + 2, IsSpace);
      if !OccursAt(s, "if", a) then None
      else
        var b := Run(s, a + 2, IsSpace);
        if b == a + 2 then None else Some(b)
  }

  /** `message\[["\']role["\']\]` at `b`. */
  predicate RoleKeyAt(s: string, b: nat) {
    OccursAt(s, "message[", b) && b + 15 <= |s| && IsQuote(s[b + 8]) && OccursAt(s, "role", b + 9)
    && IsQuote(s[b + 13]) && s[b + 14] == ']'
  }

  /** `\s*==\s*["\']system["\']` at `c`: where it ends. */
  function SystemClause(s: string, c: nat): (r: Option<nat>)
    requires c <= |s|
    ensures r.Some? ==> c + 10 <= r.value <= |s|
  {
    var d := Run(s, c, IsSpace);
    if !OccursAt(s, "==", d) then None
    else
      var e := Run(s, d + 2, IsSpace);
      if e + 8 <= |s| && IsQuote(s[e]) && OccursAt(s, "system", e + 1) && IsQuote(s[e + 7]) then Some(e + 8)
      else None
  }

  /** A `gap` run and `%}` at `f`: where the tag ends. */
  function CloseClause(s: string, f: nat, gap: char -> bool): (r: Option<nat>)
    requires f <= |s|
    ensures r.Some? ==> f + 2 <= r.value <= |s| && OccursAt(s, "%}", r.value - 2)
  {
    var g := Run(s, f, gap);
    if OccursAt(s, "%}", g) then Some(g + 2) else None
  }

  /** Where the opening tag that starts at `i` ends, when one does: `{%`, spaces, `if`, at least one
      space, `message[`, quote, `role`, quote, `]`, spaces, `==`, spaces, quote, `system`, quote, a
      `gap` run, `%}`. */
  function OpenerEnd(s: string, i: nat, gap: char -> bool): (r: Option<nat>)
    ensures r.Some? ==> i + 2 <= r.value <= |s| && OccursAt(s, "{%", i) && OccursAt(s, "%}", r.value - 2)
  {
    match IfClause(s, i)
    case None => None
    case Some(b) =>
      if !RoleKeyAt(s, b) then None
      else
        match SystemClause(s, b + 15)
        case None => None
        case Some(e) => CloseClause(s, e, gap)
  }

  /** `{%\s*if\s+` spans `s[i..b]`, with `if` at `a`. */
  predicate IfWith(s: string, i: nat, a: nat, b: nat) {
    && OccursAt(s, "{%", i) && All(s, i + 2, a, IsSpace)
    && OccursAt(s, "if", a) && a + 2 < b && All(s, a + 2, b, IsSpace)
  }

  /** `\s*==\s*["\']system["\']` spans `s[c..e + 8]`, with `==` at `d`. */
  predicate SystemWith(s: string, c: nat, d: nat, e: nat) {
    && All(s, c, d, IsSpace) && OccursAt(s, "==", d) && All(s, d + 2, e, IsSpace)
    && e + 8 <= |s| && IsQuote(s[e]) && OccursAt(s, "system", e + 1) && IsQuote(s[e + 7])
  }

  /** A `gap` run and `%}` span `s[f..r]`. */
  predicate CloseWith(s: string, f: nat, r: nat, gap: char -> bool) {
    f + 2 <= r && All(s, f, r - 2, gap) && OccursAt(s, "%}", r - 2)
  }

  /** The opening tag `s[i..r]` with its tokens in place: `if` at `a`, `message[` at `b`, `==` at `d` and
      the quoted `system` at `e`; whitespace between them (at least one character before `message[`)
      and a `gap` run before the final `%}`. */
  predicate OpenerWith(s: string, i: nat, a: nat, b: nat, d: nat, e: nat, r: nat, gap: char -> bool) {
    IfWith(s, i, a, b) && RoleKeyAt(s, b) && SystemWith(s, b + 15, d, e) && CloseWith(s, e + 8, r, gap)
  }

  /** The opening tag of the pattern spans `s[i..r]`, for some placement of its tokens. */
  ghost predicate OpenerShape(s: string, i: nat, r: nat, gap: char -> bool) {
    exists a: nat, b: nat, d: nat, e: nat :: OpenerWith(s, i, a, b, d, e, r, gap)
  }

  /** What `IfClause` finds is `{%\s*if\s+`, with `if` where the first run ends. */
  lemma {:induction false} IfClauseSound(s: string, i: nat, b: nat)
    requires IfClause(s, i) == Some(b)
    ensures IfWith(s, i, Run(s, i + 2, IsSpace), b)
  {
  }

  /** `{%\s*if\s+` followed by a non-space character is what `IfClause` finds. */
  lemma {:induction false} IfClauseComplete(s: string, i: nat, a: nat, b: nat)
    requires IfWith(s, i, a, b) && b < |s| && !IsSpace(s[b])
    ensures IfClause(s, i) == Some(b)
  {
    assert s[a] == s[a..a + 2][0] == 'i';
    RunUnique(s, i + 2, a, IsSpace);
    RunUnique(s, a + 2, b, IsSpace);
  }

  /** What `SystemClause` finds is `\s*==\s*["\']system["\']`, with `==` where the first run ends. */
  lemma {:induction false} SystemClauseSound(s: string, c: nat, f: nat)
    requires c <= |s| && SystemClause(s, c) == Some(f)
    ensures 8 <= f && SystemWith(s, c, Run(s, c, IsSpace), f - 8)
  {
    var d := Run(s, c, IsSpace);
    assert OccursAt(s, "==", d);
    var e := Run(s, d + 2, IsSpace);
    assert f == e + 8;
  }

  /** `\s*==\s*["\']system["\']` is what `SystemClause` finds. */
  lemma {:induction false} SystemClauseComplete(s: string, c: nat, d: nat, e: nat)
    requires SystemWith(s, c, d, e)
    ensures SystemClause(s, c) == Some(e + 8)
  {
    assert s[d] == s[d..d + 2][0] == '=';
    RunUnique(s, c, d, IsSpace);
    RunUnique(s, d + 2, e, IsSpace);
  }

  /** `CloseClause` ends exactly where the `gap` run and `%}` do, for a gap class without `%`. */
  lemma {:induction false} CloseClauseMeaning(s: string, f: nat, r: nat, gap: char -> bool)
    requires f <= |s| && !gap('%')
    ensures CloseClause(s, f, gap) == Some(r) <==> CloseWith(s, f, r, gap)
  {
    if CloseWith(s, f, r, gap) {
      assert s[r - 2] == s[r - 2..r][0] == '%';
      RunUnique(s, f, r - 2, gap);
    }
  }

  /** `OpenerEnd` finds exactly the opening tags that start at `i`: every run of the pattern is
      followed by a character outside its class, so no run can give anything back and the tag's
      end is unique. */
  lemma {:induction false} OpenerEndMeaning(s: string, i: nat, r: nat, gap: char -> bool)
    requires !gap('%')
    ensures OpenerEnd(s, i, gap) == Some(r) <==> OpenerShape(s, i, r, gap)
  {
    if OpenerEnd(s, i, gap) == Some(r) {
      var b, f := OpenerEndSteps(s, i, r, gap);
      OpenerEndSound(s, i, b, f, r, gap);
    }
    if OpenerShape(s, i, r, gap) {
      var a: nat, b: nat, d: nat, e: nat :| OpenerWith(s, i, a, b, d, e, r, gap);
      OpenerEndComplete(s, i, a, b, d, e, r, gap);
    }
  }

  /** Clauses found one after another by the scanners form an opening tag. */
  lemma {:induction false} OpenerEndSound(s: string, i: nat, b: nat, f: nat, r: nat, gap: char -> bool)
    requires !gap('%') && IfClause(s, i) == Some(b) && b + 15 <= |s| && RoleKeyAt(s, b)
    requires SystemClause(s, b + 15) == Some(f) && f <= |s| && CloseClause(s, f, gap) == Some(r)
    ensures OpenerShape(s, i, r, gap)
  {
    PartsFromClauses(s, i, b, f, r, gap);
    OpenerAssemble(s, i, Run(s, i + 2, IsSpace), b, Run(s, b + 15, IsSpace), f - 8, r, gap);
  }

  /** The clauses of an opening tag that `OpenerEnd` finds, and where each ends. */
  lemma {:induction false} OpenerEndSteps(s: string, i: nat, r: nat, gap: char -> bool) returns (b: nat, f: nat)
    requires OpenerEnd(s, i, gap) == Some(r)
    ensures IfClause(s, i) == Some(b) && b + 15 <= |s| && RoleKeyAt(s, b)
    ensures SystemClause(s, b + 15) == Some(f) && f <= |s| && CloseClause(s, f, gap) == Some(r)
  {
    b := IfClause(s, i).value;
    f := SystemClause(s, b + 15).value;
  }

  /** Clauses found one after another are placed as the pattern places them. */
  lemma {:induction false} PartsFromClauses(s: string, i: nat, b: nat, f: nat, r: nat, gap: char -> bool)
    requires !gap('%') && IfClause(s, i) == Some(b) && b + 15 <= |s|
    requires SystemClause(s, b + 15) == Some(f) && f <= |s| && CloseClause(s, f, gap) == Some(r)
    ensures 8 <= f && IfWith(s, i, Run(s, i + 2, IsSpace), b)
    ensures SystemWith(s, b + 15, Run(s, b + 15, IsSpace), f - 8) && CloseWith(s, f, r, gap)
  {
    IfClauseSound(s, i, b);
    SystemClauseSound(s, b + 15, f);
    CloseClauseMeaning(s, f, r, gap);
  }

  /** Four placed clauses make an opening tag. */
  lemma {:induction false} OpenerAssemble(s: string, i: nat, a: nat, b: nat, d: nat, e: nat, r: nat, gap: char -> bool)
    requires IfWith(s, i, a, b) && RoleKeyAt(s, b) && SystemWith(s, b + 15, d, e) && CloseWith(s, e + 8, r, gap)
    ensures OpenerShape(s, i, r, gap)
  {
    assert OpenerWith(s, i, a, b, d, e, r, gap);
  }

  /** A placed opening tag is the one `OpenerEnd` finds. */
  lemma {:induction false} OpenerEndComplete(s: string, i: nat, a: nat, b: nat, d: nat, e: nat, r: nat, gap: char -> bool)
    requires !gap('%') && OpenerWith(s, i, a, b, d, e, r, gap)
    ensures OpenerEnd(s, i, gap) == Some(r)
  {
    OpenerWithParts(s, i, a, b, d, e, r, gap);
    ClausesFromParts(s, i, a, b, d, e, r, gap);
    OpenerEndOf(s, i, b, e, r, gap);
  }

  /** The pieces of an opening tag, one clause at a time. */
  lemma {:induction false} OpenerWithParts(s: string, i: nat, a: nat, b: nat, d: nat, e: nat, r: nat, gap: char -> bool)
    requires OpenerWith(s, i, a, b, d, e, r, gap)
    ensures IfWith(s, i, a, b) && b < |s| && !IsSpace(s[b]) && RoleKeyAt(s, b)
    ensures b + 15 <= |s| && SystemWith(s, b + 15, d, e) && e + 8 <= |s| && CloseWith(s, e + 8, r, gap)
  {
    assert s[b] == s[b..b + 8][0] == 'm';
  }

  /** Each clause of an opening tag is found by its scanner. */
  lemma {:induction false} ClausesFromParts(s: string, i: nat, a: nat, b: nat, d: nat, e: nat, r: nat, gap: char -> bool)
    requires !gap('%') && IfWith(s, i, a, b) && b < |s| && !IsSpace(s[b])
    requires b + 15 <= |s| && SystemWith(s, b + 15, d, e) && e + 8 <= |s| && CloseWith(s, e + 8, r, gap)
    ensures IfClause(s, i) == Some(b) && SystemClause(s, b + 15) == Some(e + 8) && CloseClause(s, e + 8, gap) == Some(r)
  {
    IfClauseComplete(s, i, a, b);
    SystemClauseComplete(s, b + 15, d, e);
    CloseClauseMeaning(s, e + 8, r, gap);
  }

  lemma {:induction false} OpenerEndOf(s: string, i: nat, b: nat, e: nat, r: nat, gap: char -> bool)
    requires IfClause(s, i) == Some(b) && RoleKeyAt(s, b)
    requires b + 15 <= |s| && SystemClause(s, b + 15) == Some(e + 8)
    requires e + 8 <= |s| && CloseClause(s, e + 8, gap) == Some(r)
    ensures OpenerEnd(s, i, gap) == Some(r)
  {
  }

  /** A closing tag starts at `k`: `{%`, spaces, `endif`, spaces, `%}`. */
  predicate EndifAt(s: string, k: nat) {
    && OccursAt(s, "{%", k)
    && var a := Run(s, k + 2, IsSpace);
    && OccursAt(s, "endif", a)
    && OccursAt(s, "%}", Run(s, a + 5, IsSpace))
  }

  /** The first closing tag at or after `k`. */
  function FirstEndif(s: string, k: nat): (r: Option<nat>)
    requires k <= |s|
    ensures r.Some? ==> k <= r.value <= |s| && EndifAt(s, r.value)
    ensures r.Some? ==> forall x :: k <= x < r.value ==> !EndifAt(s, x)
    ensures r.None? ==> forall x :: k <= x <= |s| ==> !EndifAt(s, x)
    decreases |s| - k
  {
    if EndifAt(s, k) then Some(k)
    else if k == |s| then None
    else FirstEndif(s, k + 1)
  }

  /** A closing tag with no closing tag between `k` and it is the first one. */
  lemma {:induction false} FirstEndifUnique(s: string, k: nat, e: nat)
    requires k <= e <= |s| && EndifAt(s, e)
    requires forall x :: k <= x < e ==> !EndifAt(s, x)
    ensures FirstEndif(s, k) == Some(e)
    decreases e - k
  {
    if k < e {
      FirstEndifUnique(s, k + 1, e);
    }
  }

  /** The body of the block whose opening tag starts at `i`: from the end of that tag to the first
      closing tag after it. */
  function BlockAt(s: string, i: nat, gap: char -> bool): (r: Option<(nat, nat)>)
    ensures r.Some? ==> var (b, e) := r.value; i + 2 <= b <= e <= |s|
  {
    match OpenerEnd(s, i, gap)
    case None => None
    case Some(b) =>
      match FirstEndif(s, b)
      case None => None
      case Some(e) => Some((b, e))
  }

  /** A block body runs from the end of an opening tag to the first closing tag after it, and no
      further. */
  lemma BlockAtMeaning(s: string, i: nat, gap: char -> bool, b: nat, e: nat)
    ensures BlockAt(s, i, gap) == Some((b, e)) <==>
      && OpenerEnd(s, i, gap) == Some(b) && b <= e <= |s| && EndifAt(s, e)
      && forall x :: b <= x < e ==> !EndifAt(s, x)
  {
    if OpenerEnd(s, i, gap) == Some(b) {
      FirstEndifMeaning(s, b, e);
    }
  }

  /** The first closing tag from `k` on is at `e` exactly when there is one at `e` and none before it. */
  lemma FirstEndifMeaning(s: string, k: nat, e: nat)
    requires k <= |s|
    ensures FirstEndif(s, k) == Some(e) <==>
      k <= e <= |s| && EndifAt(s, e) && forall x :: k <= x < e ==> !EndifAt(s, x)
  {
    if k <= e <= |s| && EndifAt(s, e) && forall x :: k <= x < e ==> !EndifAt(s, x) {
      FirstEndifUnique(s, k, e);
    }
  }

  /** `found` holds nowhere from `lo` up to, but not including, `hi`. */
  predicate NoneBetween(found: nat -> bool, lo: nat, hi: nat)
    decreases hi - lo
  {
    lo >= hi || (!found(lo) && NoneBetween(found, lo + 1, hi))
  }

  /** `NoneBetween` says what its name says, in both directions. */
  lemma {:induction false} NoneBetweenMeaning(found: nat -> bool, lo: nat, hi: nat)
    ensures NoneBetween(found, lo, hi) <==> forall x :: lo <= x < hi ==> !found(x)
    decreases hi - lo
  {
    if lo < hi {
      NoneBetweenMeaning(found, lo + 1, hi);
    }
  }

  /** The least index from `from` up to `hi` where `found` holds, if there is one. */
  function FindFirst(found: nat -> bool, from: nat, hi: nat): (r: Option<nat>)
    requires from <= hi
    ensures r.Some? ==> from <= r.value <= hi && found(r.value) && NoneBetween(found, from, r.value)
    ensures r.None? ==> NoneBetween(found, from, hi + 1)
    decreases hi - from
  {
    if found(from) then Some(from)
    else if from == hi then None
    else FindFirst(found, from + 1, hi)
  }

  /** The search finds an index exactly when it is the first one where `found` holds. */
  lemma FindFirstLeftmost(found: nat -> bool, hi: nat, i: nat)
    ensures FindFirst(found, 0, hi) == Some(i) <==> i <= hi && found(i) && NoneBetween(found, 0, i)
  {
    var r := FindFirst(found, 0, hi);
    if i <= hi && found(i) && NoneBetween(found, 0, i) {
      NoneBetweenMeaning(found, 0, i);
      if r.None? {
        NoneBetweenMeaning(found, 0, hi + 1);
      } else {
        NoneBetweenMeaning(found, 0, r.value);
      }
    }
  }

  /** The search finds nothing exactly when `found` holds nowhere. */
  lemma FindFirstNone(found: nat -> bool, hi: nat)
    ensures FindFirst(found, 0, hi).None? <==> NoneBetween(found, 0, hi + 1)
  {
    var r := FindFirst(found, 0, hi);
    if r.Some? {
      NoneBetweenMeaning(found, 0, hi + 1);
    }
  }

  /** Where blocks start. */
  function BlockStarts(s: string, gap: char -> bool): nat -> bool {
    (x: nat) => BlockAt(s, x, gap).Some?
  }

  /** `re.search`: the leftmost start of a block. */
  function FindBlock(s: string, gap: char -> bool): (r: Option<nat>)
    ensures r.Some? ==> r.value <= |s| && BlockStarts(s, gap)(r.value)
  {
    FindFirst(BlockStarts(s, gap), 0, |s|)
  }

  /** A block starts at `i`, and none starts before it. */
  predicate LeftmostBlock(s: string, i: nat, gap: char -> bool) {
    i <= |s| && BlockStarts(s, gap)(i) && NoneBetween(BlockStarts(s, gap), 0, i)
  }

  /** `re.search` finds the leftmost block, and nothing exactly when no block starts anywhere. */
  lemma FindBlockMeaning(s: string, gap: char -> bool, i: nat)
    ensures FindBlock(s, gap) == Some(i) <==> LeftmostBlock(s, i, gap)
    ensures FindBlock(s, gap).None? <==> NoneBetween(BlockStarts(s, gap), 0, |s| + 1)
  {
    FindFirstLeftmost(BlockStarts(s, gap), |s|, i);
    FindFirstNone(BlockStarts(s, gap), |s|);
  }

  /** `extract_system_prompt` with the run in front of the opening tag's `%}` given by `gap`. */
  function ExtractWith(template: string, gap: char -> bool): (r: (string, string))
    ensures r.1 == template
    ensures r.0 != [] ==> Contains(template, r.0)
  {
    match FindBlock(template, gap)
    case None => ("", template)
    case Some(i) =>
      var (b, e) := BlockAt(template, i, gap).value;
      var body := Strip(template[b..e]);
      ContainsInSlice(template, b, e, body);
      (body, template)
  }

  /** The prompt is empty when the template has no block; otherwise it is the stripped body of the
      leftmost block, which ends at the first closing tag after its opening tag. */
  lemma ExtractMeaning(template: string, gap: char -> bool, i: nat)
    ensures NoneBetween(BlockStarts(template, gap), 0, |template| + 1) ==> ExtractWith(template, gap).0 == []
    ensures LeftmostBlock(template, i, gap) ==>
      var (b, e) := BlockAt(template, i, gap).value;
      ExtractWith(template, gap).0 == Strip(template[b..e])
  {
    FindBlockMeaning(template, gap, i);
  }

  /** `extract_system_prompt` as its pattern is written, with a run of the letter `s` in front of the
      opening tag's `%}`. */
  function ExtractSystemPrompt(template: string): (r: (string, string))
    ensures r.1 == template
    ensures r.0 != [] ==> Contains(template, r.0)
  {
    ExtractWith(template, IsLetterS)
  }

  /** `extract_system_prompt` as evidently intended, with the opening tag's run in front of `%}`
      read as whitespace (`\s*`). */
  function ExtractSystemPromptIntended(template: string): (r: (string, string))
    ensures r.1 == template
    ensures r.0 != [] ==> Contains(template, r.0)
  {
    ExtractWith(template, IsSpace)
  }

  // ---------------------------------------------------------------------------------------------
  // The usual system block

  /** The opening tag as chat templates write it, `{% if message['role'] == 'system' %}`, in four
      pieces. */
  const IfTag := "{% if "
  const RoleKey := "message['role']"
  const EqualsSystem := " == 'system'"
  const CloseTag := " %}"
  const Opener := IfTag + RoleKey + EqualsSystem + CloseTag

  /** The closing tag as chat templates write it. */
  const Endif := "{% endif %}"

  /** A template that is one system block around `body`. */
  function Block(body: string): string {
    Opener + body + Endif
  }

  /** Where the parts of the opening tag sit. */
  lemma OpenerLayout()
    ensures |Opener| == 36
    ensures Opener[0..6] == IfTag && Opener[6..21] == RoleKey
    ensures Opener[21..33] == EqualsSystem && Opener[33..36] == CloseTag
  {
    assert Opener == IfTag + (RoleKey + (EqualsSystem + CloseTag));
  }

  /** Where the parts of a block sit. */
  lemma BlockLayout(body: string)
    ensures |Block(body)| == 36 + |body| + 11
    ensures Block(body)[0..6] == IfTag
    ensures Block(body)[6..21] == RoleKey
    ensures Block(body)[21..33] == EqualsSystem
    ensures Block(body)[33..36] == CloseTag
    ensures Block(body)[36..36 + |body|] == body
    ensures Block(body)[36 + |body|..] == Endif
  {
    var s := Block(body);
    OpenerLayout();
    assert s[0..36] == Opener;
    forall a: nat, b: nat | a <= b <= 36
      ensures s[a..b] == Opener[a..b]
    {
    }
  }

  lemma IfClauseInBlock(body: string)
    ensures IfClause(Block(body), 0) == Some(6)
  {
    var s := Block(body);
    BlockLayout(body);
    assert s[0..2] == IfTag[0..2] == "{%";
    assert s[2] == IfTag[2] && s[5] == IfTag[5];
    RunUnique(s, 2, 3, IsSpace);
    assert s[3..5] == IfTag[3..5] == "if";
    assert s[6] == RoleKey[0];
    RunUnique(s, 5, 6, IsSpace);
  }

  lemma RoleKeyInBlock(body: string)
    ensures RoleKeyAt(Block(body), 6)
  {
    var s := Block(body);
    BlockLayout(body);
    assert s[6..14] == RoleKey[0..8] == "message[";
    assert s[15..19] == RoleKey[9..13] == "role";
    assert s[14] == RoleKey[8] && s[19] == RoleKey[13] && s[20] == RoleKey[14];
  }

  lemma SystemClauseInBlock(body: string)
    ensures SystemClause(Block(body), 21) == Some(33)
  {
    var s := Block(body);
    BlockLayout(body);
    assert s[21] == EqualsSystem[0] && s[22..24] == EqualsSystem[1..3] == "==";
    assert s[24] == EqualsSystem[3] && s[25] == EqualsSystem[4];
    RunUnique(s, 21, 22, IsSpace);
    RunUnique(s, 24, 25, IsSpace);
    assert s[26..32] == EqualsSystem[5..11] == "system";
    assert s[32] == EqualsSystem[11];
  }

  lemma CloseClauseInBlock(body: string)
    ensures CloseClause(Block(body), 33, IsSpace) == Some(36)
    ensures CloseClause(Block(body), 33, IsLetterS).None?
  {
    var s := Block(body);
    BlockLayout(body);
    assert s[33] == CloseTag[0] && s[34..36] == CloseTag[1..3] == "%}";
    RunUnique(s, 33, 34, IsSpace);
    RunUnique(s, 33, 33, IsLetterS);
  }

  /** In a block, the opening tag as chat templates write it ends at index 36 when the run in front
      of its `%}` may hold a space, and does not match when that run may hold only the letter `s`. */
  lemma OpenerInBlock(body: string)
    ensures OpenerEnd(Block(body), 0, IsSpace) == Some(36)
    ensures OpenerEnd(Block(body), 0, IsLetterS).None?
  {
    IfClauseInBlock(body);
    RoleKeyInBlock(body);
    SystemClauseInBlock(body);
    CloseClauseInBlock(body);
  }

  /** The closing tag of a block is a closing tag, and no opening tag starts there. */
  lemma EndifInBlock(body: string)
    ensures EndifAt(Block(body), 36 + |body|)
    ensures IfClause(Block(body), 36 + |body|).None?
  {
    var s := Block(body);
    BlockLayout(body);
    var k := 36 + |body|;
    assert s[k..k + 11] == Endif;
    EndifTag(s, k);
  }

  /** `{% endif %}` is a closing tag, and no opening tag starts where it does. */
  lemma EndifTag(s: string, k: nat)
    requires k + 11 <= |s| && s[k..k + 11] == Endif
    ensures EndifAt(s, k)
    ensures IfClause(s, k).None?
  {
    EndifTagPieces(s, k);
    RunUnique(s, k + 2, k + 3, IsSpace);
    RunUnique(s, k + 8, k + 9, IsSpace);
  }

  /** The characters of `{% endif %}`. */
  lemma EndifTagPieces(s: string, k: nat)
    requires k + 11 <= |s| && s[k..k + 11] == Endif
    ensures OccursAt(s, "{%", k) && s[k + 2] == ' ' && !IsSpace(s[k + 3])
    ensures OccursAt(s, "endif", k + 3) && !OccursAt(s, "if", k + 3)
    ensures s[k + 8] == ' ' && OccursAt(s, "%}", k + 9) && !IsSpace(s[k + 9])
  {
    var t := s[k..k + 11];
    assert forall j :: 0 <= j < 11 ==> s[k + j] == t[j];
    assert t[0..2] == "{%" && t[3..8] == "endif" && t[9..11] == "%}";
    assert s[k..k + 2] == t[0..2];
    assert s[k + 3..k + 8] == t[3..8];
    assert s[k + 9..k + 11] == t[9..11];
    assert s[k + 2] == t[2] && s[k + 8] == t[8];
  }

  /** The only `{` of a block whose body has none are the first characters of its two tags. */
  lemma BracesInBlock(body: string, x: nat)
    requires '{' !in body && x < |Block(body)|
    ensures Block(body)[x] == '{' ==> x == 0 || x == 36 + |body|
  {
    var s := Block(body);
    BlockLayout(body);
    if 0 < x < 6 {
      assert s[x] == IfTag[x];
    } else if 6 <= x < 21 {
      assert s[x] == RoleKey[x - 6];
    } else if 21 <= x < 33 {
      assert s[x] == EqualsSystem[x - 21];
    } else if 33 <= x < 36 {
      assert s[x] == CloseTag[x - 33];
    } else if 36 <= x < 36 + |body| {
      assert s[x] == body[x - 36];
    } else if 36 + |body| < x {
      assert s[x] == Endif[x - 36 - |body|];
    }
  }

  /** In a block whose body has no `{`, the closing tag is the first one after the opening tag. */
  lemma EndifFirst(body: string)
    requires '{' !in body
    ensures FirstEndif(Block(body), 36) == Some(36 + |body|)
  {
    var s := Block(body);
    EndifInBlock(body);
    forall x | 36 <= x < 36 + |body|
      ensures !EndifAt(s, x)
    {
      BracesInBlock(body, x);
      assert s[x] != '{';
      NoEndifWithoutBrace(s, x);
    }
    FirstEndifUnique(s, 36, 36 + |body|);
  }

  /** A closing tag starts with `{`. */
  lemma NoEndifWithoutBrace(s: string, x: nat)
    requires x < |s| && s[x] != '{'
    ensures !EndifAt(s, x)
  {
  }

  /** With the intended pattern, the prompt of a system block whose body has no `{` is its stripped body. */
  lemma CorrectedReadsSystemBlock(body: string)
    requires '{' !in body
    ensures ExtractSystemPromptIntended(Block(body)) == (Strip(body), Block(body))
  {
    var s := Block(body);
    BlockLayout(body);
    OpenerInBlock(body);
    EndifFirst(body);
    assert BlockAt(s, 0, IsSpace) == Some((36, 36 + |body|));
    FindBlockMeaning(s, IsSpace, 0);
  }

  /** With the pattern as written, no opening tag starts anywhere in a system block whose body has
      no `{`: at index 0 the space in front of `%}` is not an `s`, and the closing tag reads `endif`
      where `if` would have to be. */
  lemma NoOpenerAsWritten(body: string, i: nat)
    requires '{' !in body && i <= |Block(body)|
    ensures OpenerEnd(Block(body), i, IsLetterS).None?
  {
    if i == 0 {
      OpenerInBlock(body);
    } else if i == 36 + |body| {
      EndifInBlock(body);
    } else {
      NoOpenerWithoutBrace(Block(body), i, IsLetterS);
      if i < |Block(body)| {
        BracesInBlock(body, i);
      }
    }
  }

  /** An opening tag starts with `{`. */
  lemma NoOpenerWithoutBrace(s: string, i: nat, gap: char -> bool)
    ensures i < |s| && s[i] != '{' ==> OpenerEnd(s, i, gap).None?
    ensures i >= |s| ==> OpenerEnd(s, i, gap).None?
  {
  }

  /** With the pattern as written, a system block whose body has no `{` yields an empty prompt. */
  lemma AsWrittenMissesSystemBlock(body: string)
    requires '{' !in body
    ensures ExtractSystemPrompt(Block(body)) == ("", Block(body))
  {
    var s := Block(body);
    forall i | 0 <= i <= |s|
      ensures BlockAt(s, i, IsLetterS).None?
    {
      NoOpenerAsWritten(body, i);
    }
  }
}
