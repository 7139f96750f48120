/** Choosing a chat template for a model: the family guessed from the model name, the template picked
    out of a repository's tokenizer configuration, and the choice between the two. Fetching the
    configuration and reading the built-in template files are parameters of the model. */
module Fetcher {
  import opened Wrappers
  import opened Text

  /** A value of a decoded tokenizer configuration. `CNull` is JSON `null` (Python `None`); a dict keeps
      its keys in insertion order. Unlike the flat tool-call values of `Json`, a configuration nests:
      `chat_template` may be a list of dicts, and a value may be a boolean. */
  datatype Config =
    | CStr(s: string)
    | CNum(n: int)
    | CBool(b: bool)
    | CNull
    | CList(items: seq<Config>)
    | CDict(entries: seq<(string, Config)>)

  /** `d.get(key)`: the value bound to `key`, if any. */
  function Lookup(entries: seq<(string, Config)>, key: string): (r: Option<Config>)
    ensures r.Some? ==> (key, r.value) in entries
    ensures r.None? ==> forall i :: 0 <= i < |entries| ==> entries[i].0 != key
  {
    if entries == [] then None
    else if entries[0].0 == key then Some(entries[0].1)
    else Lookup(entries[1..], key)
  }

  /** Python truthiness of a configuration value. */
  predicate Truthy(c: Config) {
    match c
    case CStr(s) => s != ""
    case CNum(n) => n != 0
    case CBool(b) => b
    case CNull => false
    case CList(items) => items != []
    case CDict(entries) => entries != []
  }

  /** A value that may be JSON `null`, read as an optional value. */
  function NonNull(c: Config): (r: Option<Config>)
    ensures r.None? <==> c == CNull
    ensures r.Some? ==> r.value == c
  {
    if c == CNull then None else Some(c)
  }

  /** `t.get("template")` on a dict entry, with `null` read as `None`. */
  function TemplateOf(entries: seq<(string, Config)>): (r: Option<Config>)
    ensures r.Some? ==> ("template", r.value) in entries && r.value != CNull
    ensures r.None? ==> Lookup(entries, "template") in {None, Some(CNull)}
  {
    match Lookup(entries, "template")
    case None => None
    case Some(c) => NonNull(c)
  }

  // ---------------------------------------------------------------------------------------------
  // Template families

  /** The known families: a key to look for in the lower-cased model name, and the family it names,
      in declaration order. */
  const TemplateMappings: seq<(string, string)> := [
    ("llama-3", "llama-3"),
    ("llama-3.1", "llama-3.1"),
    ("llama-3.2", "llama-3.1"),
    ("llama-3.3", "llama-3.1"),
    ("qwen2.5", "qwen2.5"),
    ("qwen2", "qwen2.5"),
    ("hermes", "hermes"),
    ("mistral", "mistral-v7"),
    ("deepseek-r1", "deepseek-r1"),
    ("glm", "glm"),
    ("phi", "phi-4"),
    ("gemma", "gemma")
  ]

  const Generic := "generic"

  /** The first key, from index `i` on, that occurs in `name`. */
  function FirstKeyIn(name: string, i: nat): (r: Option<nat>)
    requires i <= |TemplateMappings|
    ensures r.Some? ==> i <= r.value < |TemplateMappings| && Contains(name, TemplateMappings[r.value].0)
    ensures r.Some? ==> forall j :: i <= j < r.value ==> !Contains(name, TemplateMappings[j].0)
    ensures r.None? ==> forall j :: i <= j < |TemplateMappings| ==> !Contains(name, TemplateMappings[j].0)
    decreases |TemplateMappings| - i
  {
    if i == |TemplateMappings| then None
    else if Contains(name, TemplateMappings[i].0) then Some(i)
    else FirstKeyIn(name, i + 1)
  }

  /** No family of the table is called `generic`. */
  lemma NoFamilyIsGeneric()
    ensures forall j :: 0 <= j < |TemplateMappings| ==> TemplateMappings[j].1 != Generic
  {
  }

  /** `guess_template_family`: the family of the first key, in table order, that occurs in the
      lower-cased model name; `generic` when none does. */
  function GuessTemplateFamily(modelName: string): (family: string)
    ensures family == Generic <==> forall j :: 0 <= j < |TemplateMappings| ==> !Contains(Lower(modelName), TemplateMappings[j].0)
    ensures family != Generic ==> exists j :: 0 <= j < |TemplateMappings| && family == TemplateMappings[j].1
  {
    NoFamilyIsGeneric();
    match FirstKeyIn(Lower(modelName), 0)
    case None => Generic
    case Some(j) => TemplateMappings[j].1
  }

  /** The family is the one of the first key in the table that occurs in the lower-cased name. */
  lemma GuessIsFirstKey(modelName: string, j: nat)
    requires j < |TemplateMappings| && Contains(Lower(modelName), TemplateMappings[j].0)
    requires forall k :: 0 <= k < j ==> !Contains(Lower(modelName), TemplateMappings[k].0)
    ensures GuessTemplateFamily(modelName) == TemplateMappings[j].1
  {
    var found := FirstKeyIn(Lower(modelName), 0);
    assert found == Some(j) by {
      if found.None? {
      } else if found.value < j {
      } else if found.value > j {
      }
    }
  }

  /** The guess ignores case: names that lower-case alike get the same family, and a name gets the
      family of its lower-cased form. */
  lemma GuessIgnoresCase(a: string, b: string)
    requires Lower(a) == Lower(b)
    ensures GuessTemplateFamily(a) == GuessTemplateFamily(b)
    ensures GuessTemplateFamily(Lower(a)) == GuessTemplateFamily(a)
  {
    LowerIdempotent(a);
  }

  /** A name with `llama-3.1` in it also has `llama-3` in it, which comes first in the table. */
  lemma LlamaExample()
    ensures GuessTemplateFamily("Llama-3.1-8B") == "llama-3"
  {
    var lowered := Lower("Llama-3.1-8B");
    assert lowered == "llama-3.1-8b";
    assert OccursAt(lowered, "llama-3", 0);
    GuessIsFirstKey("Llama-3.1-8B", 0);
  }

  // ---------------------------------------------------------------------------------------------
  // The chat template of a tokenizer configuration

  /** A list entry that names the default template: a dict whose `name` is `"default"`. */
  predicate IsDefault(c: Config) {
    c.CDict? && Lookup(c.entries, "name") == Some(CStr("default"))
  }

  /** The first default entry, from index `i` on. */
  function FirstDefault(items: seq<Config>, i: nat): (r: Option<nat>)
    requires i <= |items|
    ensures r.Some? ==> i <= r.value < |items| && IsDefault(items[r.value])
    ensures r.Some? ==> forall j :: i <= j < r.value ==> !IsDefault(items[j])
    ensures r.None? ==> forall j :: i <= j < |items| ==> !IsDefault(items[j])
    decreases |items| - i
  {
    if i == |items| then None
    else if IsDefault(items[i]) then Some(i)
    else FirstDefault(items, i + 1)
  }

  /** The template of a list of templates: the first default entry's `template`, else the first
      entry's `template` when it is a dict, else the first entry itself; nothing for an empty list. */
  function FromList(items: seq<Config>): (r: Option<Config>)
    ensures items == [] ==> r.None?
    ensures r.Some? ==> r.value != CNull
  {
    match FirstDefault(items, 0)
    case Some(i) => TemplateOf(items[i].entries)
    case None =>
      if items == [] then None
      else if items[0].CDict? then TemplateOf(items[0].entries)
      else NonNull(items[0])
  }

  /** The chat template that `fetch_template_from_repo` picks out of a tokenizer configuration: a
      string value verbatim, a list through `FromList`, nothing otherwise. */
  function SelectChatTemplate(config: seq<(string, Config)>): (r: Option<Config>)
    ensures Lookup(config, "chat_template").None? ==> r.None?
    ensures forall s :: Lookup(config, "chat_template") == Some(CStr(s)) ==> r == Some(CStr(s))
    ensures forall items :: Lookup(config, "chat_template") == Some(CList(items)) ==> r == FromList(items)
    ensures r.Some? ==> r.value != CNull
    ensures r.Some? ==> Lookup(config, "chat_template").value.CStr? || Lookup(config, "chat_template").value.CList?
  {
    match Lookup(config, "chat_template")
    case None => None
    case Some(CStr(s)) => Some(CStr(s))
    case Some(CList(items)) => FromList(items)
    case Some(_) => None
  }

  /** In a list, the first default entry decides, wherever it stands. */
  lemma DefaultEntryWins(items: seq<Config>, i: nat)
    requires i < |items| && IsDefault(items[i])
    requires forall j :: 0 <= j < i ==> !IsDefault(items[j])
    ensures FromList(items) == TemplateOf(items[i].entries)
  {
    var found := FirstDefault(items, 0);
    assert found == Some(i) by {
      if found.None? {
      } else if found.value < i {
      } else if found.value > i {
      }
    }
  }

  /** Without a default entry, the first entry decides: its `template` when it is a dict, itself
      otherwise. */
  lemma FirstEntryOtherwise(items: seq<Config>)
    requires items != []
    requires forall j :: 0 <= j < |items| ==> !IsDefault(items[j])
    ensures items[0].CDict? ==> FromList(items) == TemplateOf(items[0].entries)
    ensures !items[0].CDict? ==> FromList(items) == NonNull(items[0])
  {
  }

  // ---------------------------------------------------------------------------------------------
  // The template for a model

  /** Where a template comes from: a repository's configuration, or the built-in file of a family. */
  datatype Source = FetchedFrom(repoId: string) | BuiltIn(family: string)

  /** The description `get_template_for_model` returns for a source. */
  function Describe(source: Source): string {
    match source
    case FetchedFrom(repoId) => "fetched from " + repoId
    case BuiltIn(family) => "built-in " + family + " template"
  }

  /** The repository's template is used when a non-empty repository id is given and the template
      picked out of its configuration is truthy. */
  predicate UsesRepo(repoId: Option<string>, configOf: string -> seq<(string, Config)>) {
    && repoId.Some? && repoId.value != ""
    && var t := SelectChatTemplate(configOf(repoId.value));
    && t.Some? && Truthy(t.value)
  }

  /** `get_template_for_model`: the template and a description of where it came from. `configOf`
      stands for fetching a repository's tokenizer configuration (an empty one when the fetch fails)
      and `builtin` for reading a family's built-in template. */
  function GetTemplateForModel(modelName: string, repoId: Option<string>,
                               configOf: string -> seq<(string, Config)>, builtin: string -> string): (r: (Config, string))
    ensures UsesRepo(repoId, configOf) ==>
      r.1 == Describe(FetchedFrom(repoId.value)) && Some(r.0) == SelectChatTemplate(configOf(repoId.value)) && Truthy(r.0)
    ensures !UsesRepo(repoId, configOf) ==>
      r.1 == Describe(BuiltIn(GuessTemplateFamily(modelName))) && r.0 == CStr(builtin(GuessTemplateFamily(modelName)))
  {
    if repoId.Some? && repoId.value != "" then
      var template := SelectChatTemplate(configOf(repoId.value));
      if template.Some? && Truthy(template.value) then (template.value, Describe(FetchedFrom(repoId.value)))
      else BuiltInFor(modelName, builtin)
    else BuiltInFor(modelName, builtin)
  }

  /** The built-in template of the family guessed for the model. */
  function BuiltInFor(modelName: string, builtin: string -> string): (Config, string) {
    var family := GuessTemplateFamily(modelName);
    (CStr(builtin(family)), Describe(BuiltIn(family)))
  }

  /** The description says which way the template was found: it starts `fetched from ` exactly when
      the repository's template is used. */
  lemma DescriptionNamesSource(modelName: string, repoId: Option<string>,
                               configOf: string -> seq<(string, Config)>, builtin: string -> string)
    ensures var d := GetTemplateForModel(modelName, repoId, configOf, builtin).1;
      |d| >= 13 && (d[..13] == "fetched from " <==> UsesRepo(repoId, configOf))
  {
    var d := GetTemplateForModel(modelName, repoId, configOf, builtin).1;
    if !UsesRepo(repoId, configOf) {
      assert d[0] == 'b';
    }
  }
}
