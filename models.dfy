/**
 * The chat model allow-list: the configured groups of models, the lookup
 * from model id to option built from them at start, and the defaults per
 * chat mode.
 */
module Models {
  import opened Wrappers

  datatype ChatMode = Instruct | Reasoning

  /** One selectable model (`labelText` is its display label); `mode` hints
      which chat mode it serves. */
  datatype ModelOption = ModelOption(id: string, labelText: string, mode: Option<ChatMode>)

  datatype ModelGroup = ModelGroup(key: string, labelText: string, options: seq<ModelOption>)

  /** The configured groups (descriptions and tooltips omitted). */
  const ModelGroups: seq<ModelGroup> := [
    ModelGroup("cerebras-fast", "Cerebras • Fast & Cost-Efficient", [
      ModelOption("meta-llama/llama-3.3-8b-instruct", "Llama 3.3 8B Instruct", Some(Instruct)),
      ModelOption("meta-llama/llama-3.1-8b-instruct", "Llama 3.1 8B Instruct", Some(Instruct))
    ]),
    ModelGroup("cerebras-advanced", "Cerebras • Advanced Reasoning", [
      ModelOption("meta-llama/llama-3.3-70b-instruct", "Llama 3.3 70B Instruct", Some(Reasoning)),
      ModelOption("meta-llama/llama-3.1-70b-instruct", "Llama 3.1 70B Instruct", Some(Reasoning)),
      ModelOption("meta-llama/llama-3.1-405b-instruct", "Llama 3.1 405B Instruct", Some(Reasoning))
    ])
  ]

  const DefaultInstructModelId: string := "meta-llama/llama-3.3-8b-instruct"
  const DefaultReasoningModelId: string := "meta-llama/llama-3.3-70b-instruct"

  /** All options of all groups, group by group (`flatMap`). */
  function Flatten(groups: seq<ModelGroup>): seq<ModelOption> {
    if groups == [] then []
    else Flatten(groups[..|groups| - 1]) + groups[|groups| - 1].options
  }

  /** The map that setting each option under its id, in order, produces:
      a later option with the same id replaces an earlier one. */
  function LookupOf(options: seq<ModelOption>): map<string, ModelOption> {
    if options == [] then map[]
    else LookupOf(options[..|options| - 1])[options[|options| - 1].id := options[|options| - 1]]
  }

  /** The lookup holds exactly the ids of the options, each mapped to an
      option carrying that id. */
  lemma {:induction false} LookupKeys(options: seq<ModelOption>, id: string)
    ensures id in LookupOf(options) <==> exists i :: 0 <= i < |options| && options[i].id == id
    ensures id in LookupOf(options) ==> LookupOf(options)[id].id == id && LookupOf(options)[id] in options
  {
    if options != [] {
      var init := options[..|options| - 1];
      LookupKeys(init, id);
      if id in LookupOf(init) {
        var i :| 0 <= i < |init| && init[i].id == id;
        assert options[i] == init[i];
      }
      if exists i :: 0 <= i < |options| && options[i].id == id {
        var i :| 0 <= i < |options| && options[i].id == id;
        if i < |init| {
          assert init[i] == options[i];
        }
      }
    }
  }

  predicate UniqueIds(options: seq<ModelOption>) {
    forall i, j :: 0 <= i < j < |options| ==> options[i].id != options[j].id
  }

  /** With distinct ids, every option is found under its own id. */
  lemma {:induction false} LookupFindsEachOption(options: seq<ModelOption>, i: int)
    requires UniqueIds(options) && 0 <= i < |options|
    ensures options[i].id in LookupOf(options) && LookupOf(options)[options[i].id] == options[i]
  {
    var init := options[..|options| - 1];
    if i < |init| {
      assert init[i] == options[i];
      LookupFindsEachOption(init, i);
    }
  }

  /** The module-start loop: every option of every group is set in the
      lookup under its id. */
  method BuildLookup(groups: seq<ModelGroup>) returns (lookup: map<string, ModelOption>)
    ensures lookup == LookupOf(Flatten(groups))
  {
    lookup := map[];
    var g := 0;
    while g < |groups|
      invariant 0 <= g <= |groups|
      invariant lookup == LookupOf(Flatten(groups[..g]))
    {
      var options := groups[g].options;
      var k := 0;
      assert Flatten(groups[..g]) + options[..0] == Flatten(groups[..g]);
      while k < |options|
        invariant 0 <= k <= |options|
        invariant lookup == LookupOf(Flatten(groups[..g]) + options[..k])
      {
        var before := Flatten(groups[..g]) + options[..k];
        assert Flatten(groups[..g]) + options[..k + 1] == before + [options[k]];
        assert (before + [options[k]])[..|before|] == before;
        lookup := lookup[options[k].id := options[k]];
        k := k + 1;
      }
      assert options[..k] == options;
      assert groups[..g + 1][..g] == groups[..g];
      g := g + 1;
    }
    assert groups[..g] == groups;
  }

  /** The lookup the configured groups give. */
  function Lookup(groups: seq<ModelGroup>): map<string, ModelOption> {
    LookupOf(Flatten(groups))
  }

  /** No id is missing, empty or given twice. */
  predicate WellFormed(groups: seq<ModelGroup>) {
    var options := Flatten(groups);
    UniqueIds(options) && forall i :: 0 <= i < |options| ==> options[i].id != ""
  }

  /** `findOptionById`: nothing for an absent or empty id, else the lookup's entry. */
  function FindOptionById(groups: seq<ModelGroup>, id: Option<string>): Option<ModelOption> {
    if id.None? || id.value == "" then None
    else if id.value in Lookup(groups) then Some(Lookup(groups)[id.value])
    else None
  }

  /** `isModelIdAllowed`: the id is a string the lookup holds. */
  function IsModelIdAllowed(groups: seq<ModelGroup>, id: Option<string>): bool {
    id.Some? && id.value in Lookup(groups)
  }

  /** `inferModeFromModelId`: the mode hint of the option under a non-empty id. */
  function InferModeFromModelId(groups: seq<ModelGroup>, id: Option<string>): Option<ChatMode> {
    if id.None? || id.value == "" then None
    else if id.value in Lookup(groups) then Lookup(groups)[id.value].mode
    else None
  }

  /** An id is allowed exactly when some configured option carries it. */
  lemma AllowedIffConfigured(groups: seq<ModelGroup>, id: string)
    ensures IsModelIdAllowed(groups, Some(id)) <==>
            exists i :: 0 <= i < |Flatten(groups)| && Flatten(groups)[i].id == id
  {
    assert Lookup(groups) == LookupOf(Flatten(groups));
    LookupKeys(Flatten(groups), id);
  }

  /** When no configured id is empty, an id finds an option exactly when
      it is allowed, the option found carries that id, and its mode is
      the mode inferred for the id. */
  lemma FindAgreesWithAllowed(groups: seq<ModelGroup>, id: Option<string>)
    requires WellFormed(groups)
    ensures FindOptionById(groups, id).Some? <==> IsModelIdAllowed(groups, id)
    ensures FindOptionById(groups, id).Some? ==> FindOptionById(groups, id).value.id == id.value
    ensures InferModeFromModelId(groups, id) ==
            if FindOptionById(groups, id).Some? then FindOptionById(groups, id).value.mode else None
  {
    if id.Some? {
      LookupKeys(Flatten(groups), id.value);
    }
  }

  /** With distinct ids, looking up an option's own id finds that option. */
  lemma FindEachOption(groups: seq<ModelGroup>, i: int)
    requires WellFormed(groups) && 0 <= i < |Flatten(groups)|
    ensures FindOptionById(groups, Some(Flatten(groups)[i].id)) == Some(Flatten(groups)[i])
  {
    LookupFindsEachOption(Flatten(groups), i);
  }

  /** The instruct default: the configured default id's option, else the
      first option of the first group. */
  function DefaultInstructOption(groups: seq<ModelGroup>): Option<ModelOption> {
    var found := FindOptionById(groups, Some(DefaultInstructModelId));
    if found.Some? then found
    else if |groups| > 0 && |groups[0].options| > 0 then Some(groups[0].options[0])
    else None
  }

  /** The reasoning default: its own id's option, else the instruct
      default id's option, else the first option overall. */
  function DefaultReasoningOption(groups: seq<ModelGroup>): Option<ModelOption> {
    var found := FindOptionById(groups, Some(DefaultReasoningModelId));
    var fallback := FindOptionById(groups, Some(DefaultInstructModelId));
    if found.Some? then found
    else if fallback.Some? then fallback
    else if |Flatten(groups)| > 0 then Some(Flatten(groups)[0])
    else None
  }

  /** The id each mode resolves to (`OPENROUTER_MODELS[mode].id`). */
  function InstructModelId(groups: seq<ModelGroup>): string {
    var o := DefaultInstructOption(groups);
    if o.Some? then o.value.id else DefaultInstructModelId
  }

  function ReasoningModelId(groups: seq<ModelGroup>): string {
    var o := DefaultReasoningOption(groups);
    if o.Some? then o.value.id else DefaultReasoningModelId
  }

  /** `resolveModelForMode`: "reasoning" picks the reasoning default; an
      absent, empty or any other mode string picks the instruct default. */
  function ResolveModelForMode(groups: seq<ModelGroup>, mode: Option<string>): string {
    if mode.None? || mode.value == "" then InstructModelId(groups)
    else if mode.value == "reasoning" then ReasoningModelId(groups)
    else InstructModelId(groups)
  }

  lemma FlattenFirstGroup(groups: seq<ModelGroup>)
    requires |groups| > 0
    ensures |groups[0].options| <= |Flatten(groups)|
    ensures Flatten(groups)[..|groups[0].options|] == groups[0].options
    decreases |groups|
  {
    var init := groups[..|groups| - 1];
    if |groups| > 1 {
      FlattenFirstGroup(init);
      assert init[0] == groups[0];
      var n := |groups[0].options|;
      assert (Flatten(init) + groups[|groups| - 1].options)[..n] == Flatten(init)[..n];
    } else {
      assert init == [];
      assert Flatten(groups) == groups[0].options;
    }
  }

  /** Whatever the mode, the resolved model is on the allow-list, provided
      the first group has an option. */
  lemma ResolvedModelIsAllowed(groups: seq<ModelGroup>, mode: Option<string>)
    requires |groups| > 0 && |groups[0].options| > 0
    ensures IsModelIdAllowed(groups, Some(ResolveModelForMode(groups, mode)))
  {
    var options := Flatten(groups);
    FlattenFirstGroup(groups);
    assert options[0] == groups[0].options[0];
    LookupKeys(options, options[0].id);
    LookupKeys(options, DefaultInstructModelId);
    LookupKeys(options, DefaultReasoningModelId);
  }

  lemma ConfiguredOptions()
    ensures Flatten(ModelGroups) == ModelGroups[0].options + ModelGroups[1].options
  {
    assert ModelGroups[..1] == [ModelGroups[0]];
    assert ModelGroups[..1][..0] == [];
    assert Flatten(ModelGroups[..1]) == ModelGroups[0].options;
  }

  /** The configured table has distinct, non-empty ids. */
  lemma ConfiguredGroupsWellFormed()
    ensures WellFormed(ModelGroups)
  {
    ConfiguredOptions();
    var options := Flatten(ModelGroups);
    assert |options| == 5;
    assert |options[0].id| == |options[1].id| == 32 && |options[2].id| == |options[3].id| == 33;
    assert |options[4].id| == 34;
    assert options[0].id[19] != options[1].id[19] && options[2].id[19] != options[3].id[19];
  }

  /** The configured defaults: instruct (and no mode) resolves to the 3.3
      8B model with mode instruct, reasoning to the 3.3 70B model with mode
      reasoning, and an unknown id is refused. */
  lemma ConfiguredDefaults()
    ensures ResolveModelForMode(ModelGroups, None) == "meta-llama/llama-3.3-8b-instruct"
    ensures ResolveModelForMode(ModelGroups, Some("instruct")) == "meta-llama/llama-3.3-8b-instruct"
    ensures ResolveModelForMode(ModelGroups, Some("reasoning")) == "meta-llama/llama-3.3-70b-instruct"
    ensures InferModeFromModelId(ModelGroups, Some("meta-llama/llama-3.3-8b-instruct")) == Some(Instruct)
    ensures InferModeFromModelId(ModelGroups, Some("meta-llama/llama-3.3-70b-instruct")) == Some(Reasoning)
    ensures !IsModelIdAllowed(ModelGroups, Some("non-existent"))
  {
    ConfiguredGroupsWellFormed();
    var options := Flatten(ModelGroups);
    ConfiguredOptions();
    LookupFindsEachOption(options, 0);
    LookupFindsEachOption(options, 2);
    LookupKeys(options, "non-existent");
  }
}
