/** Template mutation: the catalogue of instruction texts, their injection into a chat template,
    the variants generated from a base template, and the extraction of a template's system prompt. */
module Optimizer {
  import opened Wrappers
  import opened Text

  /** A template variant with its score. */
  datatype TemplateVariant = TemplateVariant(
    template: string,
    score: real,
    generation: int,
    parentId: Option<string>,
    mutations: seq<string>)

  /** The constructor with an optional mutation list: a missing list becomes the empty list. */
  function NewVariant(template: string, score: real, generation: int, parentId: Option<string>,
                      mutations: Option<seq<string>>): (v: TemplateVariant)
    ensures v.template == template && v.score == score && v.generation == generation && v.parentId == parentId
    ensures mutations.None? ==> v.mutations == []
    ensures mutations.Some? ==> v.mutations == mutations.value
  {
    TemplateVariant(template, score, generation, parentId, mutations.GetOr([]))
  }

  // ---------------------------------------------------------------------------------------------
  // The catalogue

  // The five instruction texts, line by line. Each line is written as short literals joined by `+`:
  // the verifier decides that a short literal has no `%` character by itself, but not a long one.

  const ToolInstructions := ToolInstructionsLine1 + "\n" + ToolInstructionsLine2
  const ToolInstructionsLine1 :=
    "You have access " + "to tools. When " + "you need to use a " + "tool, output it " + "in this exact " + "format:"
  const ToolInstructionsLine2 :=
    "<tool_call={\"name\"" + ": \"tool_name\", " + "\"arguments\": " + "{\"arg\": \"value\"}}>"

  const JsonHint :=
    "Always output " + "valid JSON for " + "tool arguments."

  const StrictFormat := StrictFormatLine1 + "\n" + StrictFormatLine2 + "\n" + StrictFormatLine3
  const StrictFormatLine1 :=
    "IMPORTANT: Tool " + "calls must be in " + "this exact format:"
  const StrictFormatLine2 :=
    "<tool_call={\"name\"" + ": " + "\"function_name\", " + "\"arguments\": " + "{\"key\": \"value\"}}>"
  const StrictFormatLine3 :=
    "Do not include " + "any other text " + "when making a " + "tool call."

  const Examples := ExamplesLine1 + "\n" + ExamplesLine2 + "\n" + ExamplesLine3
  const ExamplesLine1 := "Examples:"
  const ExamplesLine2 :=
    "User: What\'s the " + "weather in Tokyo?"
  const ExamplesLine3 :=
    "Assistant: " + "<tool_call={\"name\"" + ": \"get_weather\", " + "\"arguments\": " + "{\"location\": " + "\"Tokyo\"}}>"

  const ToolFirst :=
    "When a tool is " + "available that " + "could help, " + "always use it " + "rather than " + "answering " + "directly."

  /** The names of the mutation catalogue, in declaration order. */
  const MutationNames: seq<string> :=
    ["add_tool_instructions", "add_json_hint", "add_strict_format", "add_examples", "force_tool_first"]

  /** The instruction text of each catalogue entry, in the same order. */
  const MutationTexts: seq<string> := [ToolInstructions, JsonHint, StrictFormat, Examples, ToolFirst]

  /** The catalogue names are distinct: no two have the same length. */
  lemma NamesDistinct()
    ensures forall i, j :: 0 <= i < j < |MutationNames| ==> MutationNames[i] != MutationNames[j]
  {
    assert |MutationNames[0]| == 21 && |MutationNames[1]| == 13 && |MutationNames[2]| == 17;
    assert |MutationNames[3]| == 12 && |MutationNames[4]| == 16;
  }

  /** Where `name` stands in the catalogue, looking from index `k` on. */
  function NameIndex(name: string, k: nat): (r: Option<nat>)
    requires k <= |MutationNames|
    ensures r.Some? ==> k <= r.value < |MutationNames| && MutationNames[r.value] == name
    ensures r.None? ==> forall j :: k <= j < |MutationNames| ==> MutationNames[j] != name
    decreases |MutationNames| - k
  {
    if k == |MutationNames| then None
    else if MutationNames[k] == name then Some(k)
    else NameIndex(name, k + 1)
  }

  /** `name in TEMPLATE_MUTATIONS`. */
  predicate Known(name: string) {
    NameIndex(name, 0).Some?
  }

  /** The instruction text of the mutation called `name`, if the catalogue has one. */
  function MutationText(name: string): (r: Option<string>)
    ensures r.Some? <==> name in MutationNames
    ensures forall k :: 0 <= k < |MutationNames| && MutationNames[k] == name ==> r == Some(MutationTexts[k])
  {
    NamesDistinct();
    match NameIndex(name, 0)
    case None => None
    case Some(k) => Some(MutationTexts[k])
  }

  /** No instruction text holds a `%`, so none can spell a Jinja statement tag. Each line is
      checked in a lemma of its own, which keeps every proof small. */
  lemma NoPercentInCatalogue()
    ensures forall k :: 0 <= k < |MutationTexts| ==> '%' !in MutationTexts[k]
  {
    NoPercentInToolInstructions();
    NoPercentInJsonHint();
    NoPercentInStrictFormat();
    NoPercentInExamples();
    NoPercentInToolFirst();
  }

  lemma NoPercentInToolInstructions()
    ensures '%' !in ToolInstructions
  {
    NoPercentInToolInstructionsLine1();
    NoPercentInToolInstructionsLine2();
  }

  lemma NoPercentInStrictFormat()
    ensures '%' !in StrictFormat
  {
    NoPercentInStrictFormatLine1();
    NoPercentInStrictFormatLine2();
    NoPercentInStrictFormatLine3();
  }

  lemma NoPercentInExamples()
    ensures '%' !in Examples
  {
    NoPercentInExamplesLine2();
    NoPercentInExamplesLine3();
  }

  lemma NoPercentInJsonHint()
    ensures '%' !in JsonHint
  {
  }

  lemma NoPercentInToolFirst()
    ensures '%' !in ToolFirst
  {
  }

  lemma NoPercentInToolInstructionsLine1()
    ensures '%' !in ToolInstructionsLine1
  {
  }

  lemma NoPercentInToolInstructionsLine2()
    ensures '%' !in ToolInstructionsLine2
  {
  }

  lemma NoPercentInStrictFormatLine1()
    ensures '%' !in StrictFormatLine1
  {
  }

  lemma NoPercentInStrictFormatLine2()
    ensures '%' !in StrictFormatLine2
  {
  }

  lemma NoPercentInStrictFormatLine3()
    ensures '%' !in StrictFormatLine3
  {
  }

  lemma NoPercentInExamplesLine2()
    ensures '%' !in ExamplesLine2
  {
  }

  lemma NoPercentInExamplesLine3()
    ensures '%' !in ExamplesLine3
  {
  }

  // ---------------------------------------------------------------------------------------------
  // Injecting instructions

  /** The loop over the chat messages that the instructions are placed before. */
  const MessageLoop := "{% for message in messages %}"

  /** The line put in front of a template that has the message loop: a Jinja assignment. */
  function Assignment(instructions: string): string {
    "{% set system_message = '" + instructions + "' %}\n"
  }

  /** The line put in front of any other template: a Jinja comment. */
  function Comment(instructions: string): string {
    "{# System Instructions: " + instructions + " #}\n"
  }

  /** What is put in front of the template. */
  function Injection(template: string, instructions: string): string {
    if Contains(template, MessageLoop) then Assignment(instructions) else Comment(instructions)
  }

  /** `add_system_instructions`: the injected line, then the template unchanged. */
  function AddSystemInstructions(template: string, instructions: string): (r: string)
    ensures |r| > |template|
    ensures r == Injection(template, instructions) + template
  {
    Injection(template, instructions) + template
  }

  /** The template is a suffix of the result; the line in front of it carries the instructions, and
      is a Jinja assignment exactly when the template has the message loop. */
  lemma AddSystemInstructionsShape(template: string, instructions: string)
    ensures var r := AddSystemInstructions(template, instructions);
      && r[|r| - |template|..] == template
      && Contains(r[..|r| - |template|], instructions)
      && (r[..25] == "{% set system_message = '" <==> Contains(template, MessageLoop))
  {
    var r := AddSystemInstructions(template, instructions);
    var inj := Injection(template, instructions);
    var head := if Contains(template, MessageLoop) then "{% set system_message = '" else "{# System Instructions: ";
    assert inj == head + instructions + (if Contains(template, MessageLoop) then "' %}\n" else " #}\n");
    assert OccursAt(inj, instructions, |head|);
    assert r[..|r| - |template|] == inj;
    if !Contains(template, MessageLoop) {
      assert r[1] == '#';
    }
  }

  /** Every `%` of the comment line comes from the instructions. */
  lemma PercentInComment(instructions: string, j: nat)
    requires j < |Comment(instructions)| && Comment(instructions)[j] == '%'
    ensures '%' in instructions
  {
    var head := "{# System Instructions: ";
    if |head| <= j < |head| + |instructions| {
      assert Comment(instructions)[j] == instructions[j - |head|];
    }
  }

  /** Without a `%` in the instructions, no message loop starts inside the comment line: one that
      ended inside it would need a `%` there, and one that ran past it would contain its line break. */
  lemma NoLoopStartsInComment(instructions: string, template: string, i: nat)
    requires '%' !in instructions
    requires i < |Comment(instructions)|
    ensures !OccursAt(Comment(instructions) + template, MessageLoop, i)
  {
    var c := Comment(instructions);
    var r := c + template;
    assert r[|c| - 1] == '\n';
    assert '\n' !in MessageLoop;
    if OccursAt(r, MessageLoop, i) {
      if i + |MessageLoop| <= |c| {
        assert c[i + 1] == r[i + 1] == MessageLoop[1];
        PercentInComment(instructions, i + 1);
      }
    }
  }

  /** The message loop occurs in the result exactly when it occurs in the template, provided the
      instructions hold no `%`. */
  lemma MessageLoopPreserved(template: string, instructions: string)
    requires '%' !in instructions
    ensures Contains(AddSystemInstructions(template, instructions), MessageLoop) <==> Contains(template, MessageLoop)
  {
    var r := AddSystemInstructions(template, instructions);
    var inj := Injection(template, instructions);
    if Contains(template, MessageLoop) {
      var i :| 0 <= i <= |template| - |MessageLoop| && OccursAt(template, MessageLoop, i);
      assert r[|inj| + i..|inj| + i + |MessageLoop|] == template[i..i + |MessageLoop|];
      assert OccursAt(r, MessageLoop, |inj| + i);
    } else if Contains(r, MessageLoop) {
      var i :| 0 <= i <= |r| - |MessageLoop| && OccursAt(r, MessageLoop, i);
      if i < |inj| {
        NoLoopStartsInComment(instructions, template, i);
      } else {
        assert template[i - |inj|..i - |inj| + |MessageLoop|] == r[i..i + |MessageLoop|];
        assert OccursAt(template, MessageLoop, i - |inj|);
      }
    }
  }

  // ---------------------------------------------------------------------------------------------
  // Mutations

  /** `mutate_template`: each of the five catalogue entries injects its own text; any other name
      leaves the template as it is. */
  function MutateTemplate(template: string, name: string): (r: string)
    ensures !Known(name) ==> r == template
    ensures Known(name) ==> |r| > |template|
    ensures Known(name) ==> r == AddSystemInstructions(template, MutationText(name).value)
  {
    match MutationText(name)
    case None => template
    case Some(text) => AddSystemInstructions(template, text)
  }

  /** A mutation changes the template exactly when its name is in the catalogue. */
  lemma MutateChangesIff(template: string, name: string)
    ensures MutateTemplate(template, name) != template <==> Known(name)
  {
  }

  /** The names that `keep` accepts, in order. */
  function Kept(names: seq<string>, keep: string -> bool): (r: seq<string>)
    ensures |r| <= |names|
    decreases |names|
  {
    if names == [] then []
    else
      var init := Kept(names[..|names| - 1], keep);
      if keep(names[|names| - 1]) then init + [names[|names| - 1]] else init
  }

  /** What is kept is accepted and was offered. */
  lemma {:induction false} KeptMembers(names: seq<string>, keep: string -> bool)
    ensures forall x :: x in Kept(names, keep) ==> x in names && keep(x)
    decreases |names|
  {
    if names != [] {
      var init := names[..|names| - 1];
      KeptMembers(init, keep);
      assert forall x :: x in init ==> x in names;
    }
  }

  /** When every name is accepted, every name is kept. */
  lemma {:induction false} KeptAll(names: seq<string>, keep: string -> bool)
    requires forall i :: 0 <= i < |names| ==> keep(names[i])
    ensures Kept(names, keep) == names
    decreases |names|
  {
    if names != [] {
      KeptAll(names[..|names| - 1], keep);
      assert names[..|names| - 1] + [names[|names| - 1]] == names;
    }
  }

  /** When no name is accepted, nothing is kept. */
  lemma {:induction false} KeptNone(names: seq<string>, keep: string -> bool)
    requires forall i :: 0 <= i < |names| ==> !keep(names[i])
    ensures Kept(names, keep) == []
    decreases |names|
  {
    if names != [] {
      KeptNone(names[..|names| - 1], keep);
    }
  }

  /** The variant that the mutation `name` makes of the base: unscored, one generation on. */
  function Child(base: string, generation: int, parentId: Option<string>, name: string): (v: TemplateVariant)
    ensures v.template == MutateTemplate(base, name) && v.mutations == [name]
    ensures v.score == 0.0 && v.generation == generation + 1 && v.parentId == parentId
  {
    TemplateVariant(MutateTemplate(base, name), 0.0, generation + 1, parentId, [name])
  }

  /** One child per name, in order. */
  function Children(base: string, generation: int, parentId: Option<string>, kept: seq<string>): (vs: seq<TemplateVariant>)
    ensures |vs| == |kept|
    ensures forall i :: 0 <= i < |kept| ==> vs[i] == Child(base, generation, parentId, kept[i])
  {
    seq(|kept|, i requires 0 <= i < |kept| => Child(base, generation, parentId, kept[i]))
  }

  /** The variants for `names`: a child for each name in the catalogue, in order, and none for the others. */
  function VariantsFor(base: string, generation: int, parentId: Option<string>, names: seq<string>): seq<TemplateVariant> {
    Children(base, generation, parentId, Kept(names, Known))
  }

  /** `generate_variants`: by default every catalogue entry is tried, in catalogue order; a variant is
      kept when the mutation changed the template. */
  method GenerateVariants(base: string, generation: int, parentId: Option<string>, mutationsToTry: Option<seq<string>>)
    returns (variants: seq<TemplateVariant>)
    ensures variants == VariantsFor(base, generation, parentId, mutationsToTry.GetOr(MutationNames))
  {
    var names := mutationsToTry.GetOr(MutationNames);
    variants := [];
    for i := 0 to |names|
      invariant variants == VariantsFor(base, generation, parentId, names[..i])
    {
      var mutated := MutateTemplate(base, names[i]);
      VariantsStep(base, generation, parentId, names, i);
      if mutated != base {
        variants := variants + [TemplateVariant(mutated, 0.0, generation + 1, parentId, [names[i]])];
      }
    }
    assert names[..|names|] == names;
  }

  /** One more name adds its child exactly when its mutation changes the base. */
  lemma VariantsStep(base: string, generation: int, parentId: Option<string>, names: seq<string>, i: nat)
    requires i < |names|
    ensures MutateTemplate(base, names[i]) != base ==>
      VariantsFor(base, generation, parentId, names[..i + 1])
        == VariantsFor(base, generation, parentId, names[..i]) + [Child(base, generation, parentId, names[i])]
    ensures MutateTemplate(base, names[i]) == base ==>
      VariantsFor(base, generation, parentId, names[..i + 1]) == VariantsFor(base, generation, parentId, names[..i])
  {
    assert names[..i + 1][..i] == names[..i];
    MutateChangesIff(base, names[i]);
    var kept := Kept(names[..i], Known);
    if Known(names[i]) {
      assert Kept(names[..i + 1], Known) == kept + [names[i]];
      ChildrenSnoc(base, generation, parentId, kept, names[i]);
    }
  }

  /** The children of a longer list end with the child of its last name. */
  lemma ChildrenSnoc(base: string, generation: int, parentId: Option<string>, kept: seq<string>, name: string)
    ensures Children(base, generation, parentId, kept + [name])
      == Children(base, generation, parentId, kept) + [Child(base, generation, parentId, name)]
  {
  }

  /** Every variant is a fresh, unscored child of `parentId` in the next generation, made by one
      catalogue mutation of the base. */
  lemma VariantsAreChildren(base: string, generation: int, parentId: Option<string>, names: seq<string>)
    ensures forall v :: v in VariantsFor(base, generation, parentId, names) ==>
      && v.score == 0.0 && v.generation == generation + 1 && v.parentId == parentId
      && |v.mutations| == 1 && Known(v.mutations[0]) && v.mutations[0] in names
      && v.template == MutateTemplate(base, v.mutations[0]) && v.template != base
  {
    KeptMembers(names, Known);
    forall name | Known(name) {
      MutateChangesIff(base, name);
    }
  }

  /** When every name is in the catalogue, there is one variant per name, in the order of the names. */
  lemma VariantsOnePerName(base: string, generation: int, parentId: Option<string>, names: seq<string>)
    requires forall i :: 0 <= i < |names| ==> Known(names[i])
    ensures |VariantsFor(base, generation, parentId, names)| == |names|
    ensures forall i :: 0 <= i < |names| ==> VariantsFor(base, generation, parentId, names)[i].mutations == [names[i]]
  {
    KeptAll(names, Known);
  }

  /** Names outside the catalogue contribute nothing. */
  lemma VariantsSkipUnknown(base: string, generation: int, parentId: Option<string>, names: seq<string>)
    requires forall i :: 0 <= i < |names| ==> !Known(names[i])
    ensures VariantsFor(base, generation, parentId, names) == []
  {
    KeptNone(names, Known);
  }

  /** Without a list of mutations, the five catalogue entries each yield a variant, in order. */
  lemma DefaultVariants(base: string, generation: int, parentId: Option<string>)
    ensures |VariantsFor(base, generation, parentId, MutationNames)| == 5
    ensures forall i :: 0 <= i < 5 ==> VariantsFor(base, generation, parentId, MutationNames)[i].mutations == [MutationNames[i]]
  {
    VariantsOnePerName(base, generation, parentId, MutationNames);
  }

  // ---------------------------------------------------------------------------------------------
  // Combining mutations

  /** `combine_mutations`: the mutations applied one after another, first to last. */
  function CombineMutations(base: string, names: seq<string>): (r: string)
    ensures |r| >= |base|
    decreases |names|
  {
    if names == [] then base
    else MutateTemplate(CombineMutations(base, names[..|names| - 1]), names[|names| - 1])
  }

  /** Applying `a` and then `b` is applying `a + b`. */
  lemma {:induction false} CombineAppend(base: string, a: seq<string>, b: seq<string>)
    ensures CombineMutations(base, a + b) == CombineMutations(CombineMutations(base, a), b)
    decreases |b|
  {
    if b == [] {
      assert a + b == a;
    } else {
      CombineAppend(base, a, b[..|b| - 1]);
      assert (a + b)[..|a + b| - 1] == a + b[..|b| - 1];
    }
  }

  /** Combining leaves the base unchanged exactly when no name is in the catalogue. */
  lemma {:induction false} CombineIdentityIff(base: string, names: seq<string>)
    ensures CombineMutations(base, names) == base <==> forall i :: 0 <= i < |names| ==> !Known(names[i])
    decreases |names|
  {
    if names != [] {
      var init := names[..|names| - 1];
      CombineIdentityIff(base, init);
      var mid := CombineMutations(base, init);
      if Known(names[|names| - 1]) {
        assert |CombineMutations(base, names)| > |mid| >= |base|;
      }
    }
  }

  /** The message loop is present after every step exactly when it is present in the base, so
      every step injects its text the same way. */
  lemma {:induction false} CombineKeepsBranch(base: string, names: seq<string>)
    ensures Contains(CombineMutations(base, names), MessageLoop) <==> Contains(base, MessageLoop)
    decreases |names|
  {
    if names != [] {
      var init := names[..|names| - 1];
      CombineKeepsBranch(base, init);
      var mid := CombineMutations(base, init);
      var name := names[|names| - 1];
      if Known(name) {
        NoPercentInCatalogue();
        MessageLoopPreserved(mid, MutationText(name).value);
      }
    }
  }
}
