/** Merging the upstream pricing file, the current catalogue and models.dev into a new
    catalogue. Catalogues are compared as dictionaries: by what each key holds. */
module MergePricing {
  import opened Wrappers

  datatype Value = Flag(on: bool) | Number(amount: real) | Text(text: string) | Opaque(id: int)

  /** A field's name: a capability flag `supports_...`, one this program writes, or any other. */
  datatype Name =
    | Supports(capability: string)
    | Source | LitellmProvider | Mode
    | InputCostPerToken | OutputCostPerToken | CacheReadInputTokenCost
    | MaxInputTokens | MaxOutputTokens
    | Other(text: string)

  type Fields = map<Name, Value>

  /** Catalogue entries are dictionaries, but nothing stops a file from holding another value. */
  datatype Entry = Dict(fields: Fields) | NotDict(value: Value)

  type Catalogue = map<string, Entry>

  /** The cost fields of models.dev: the three that are priced, or any other. */
  datatype CostField = Input | Output | CacheRead | OtherCost(text: string)

  /** A models.dev model; zero stands for a cost or a limit that is absent. */
  datatype Model = Model(
    cost: map<CostField, real>, kind: string, context: nat, output: nat,
    toolCall: bool, reasoning: bool, imageInput: bool)

  datatype Listed = Listed(id: string, model: Model)

  type ModelsDev = map<string, seq<Listed>>

  datatype Provider = Provider(id: string, prefix: string, provider: string, mode: string)

  const MODELS_DEV_SOURCE := "models.dev"

  const PROVIDERS: seq<Provider> := [
    Provider("perplexity-agent", "perplexity/", "perplexity", "responses"),
    Provider("google", "gemini/", "gemini", "chat"),
    Provider("google-vertex", "vertex_ai/", "vertex_ai", "chat")]

  datatype Cost = Cost(field: CostField, key: Name)

  const COSTS: seq<Cost> := [
    Cost(Input, InputCostPerToken),
    Cost(Output, OutputCostPerToken),
    Cost(CacheRead, CacheReadInputTokenCost)]

  predicate IsModelsDev(entry: Entry) {
    entry.Dict? && Source in entry.fields && entry.fields[Source] == Text(MODELS_DEV_SOURCE)
  }

  // ---------------------------------------------------------- converting models.dev

  predicate Charged(cost: map<CostField, real>, field: CostField) {
    field in cost && cost[field] != 0.0
  }

  predicate HasOtherCost(cost: map<CostField, real>) {
    exists field :: field in cost && field.OtherCost?
  }

  predicate IsSkipped(model: Model) {
    !Charged(model.cost, Input) || HasOtherCost(model.cost)
  }

  function Prices(cost: map<CostField, real>, n: nat): Fields
    requires n <= |COSTS|
  {
    if n == 0 then map[]
    else
      var before := Prices(cost, n - 1);
      var c := COSTS[n - 1];
      if Charged(cost, c.field) then before[c.key := Number(cost[c.field] / 1000000.0)] else before
  }

  function Limits(model: Model): Fields {
    (if model.context != 0 then map[MaxInputTokens := Number(model.context as real)] else map[])
    + (if model.output != 0 && model.kind != "embedding"
       then map[MaxOutputTokens := Number(model.output as real)] else map[])
  }

  /** Only a true flag is stated. */
  function Capabilities(model: Model): Fields {
    (if model.toolCall then map[Supports("function_calling") := Flag(true)] else map[])
    + (if model.reasoning then map[Supports("reasoning") := Flag(true)] else map[])
    + (if model.imageInput then map[Supports("vision") := Flag(true)] else map[])
  }

  function EntryOf(row: Provider, model: Model): (entry: Entry)
    ensures IsModelsDev(entry)
  {
    var mode := if model.kind == "embedding" then "embedding" else row.mode;
    Dict(map[LitellmProvider := Text(row.provider), Mode := Text(mode)]
         + Prices(model.cost, |COSTS|) + Limits(model) + Capabilities(model)
         + map[Source := Text(MODELS_DEV_SOURCE)])
  }

  /** The entries of a provider's first n models. */
  function FromModels(row: Provider, models: seq<Listed>, n: nat): Catalogue
    requires n <= |models|
  {
    if n == 0 then map[] else WithModel(FromModels(row, models, n - 1), row, models[n - 1])
  }

  function WithModel(entries: Catalogue, row: Provider, listed: Listed): Catalogue {
    if IsSkipped(listed.model) then entries else entries[row.prefix + listed.id := EntryOf(row, listed.model)]
  }

  lemma {:induction false} ModelsAreMarked(row: Provider, models: seq<Listed>, n: nat)
    requires n <= |models|
    ensures forall key :: key in FromModels(row, models, n) ==> IsModelsDev(FromModels(row, models, n)[key])
  {
    if n > 0 {
      ModelsAreMarked(row, models, n - 1);
    }
  }

  lemma {:induction false} ProvidersAreMarked(modelsDev: ModelsDev, n: nat)
    requires n <= |PROVIDERS|
    ensures forall key :: key in FromProviders(modelsDev, n) ==> IsModelsDev(FromProviders(modelsDev, n)[key])
  {
    if n > 0 {
      var models := ModelsOf(modelsDev, PROVIDERS[n - 1]);
      ProvidersAreMarked(modelsDev, n - 1);
      ModelsAreMarked(PROVIDERS[n - 1], models, |models|);
    }
  }

  function SkippedOf(models: seq<Listed>, n: nat): nat
    requires n <= |models|
  {
    if n == 0 then 0 else SkippedOf(models, n - 1) + if IsSkipped(models[n - 1].model) then 1 else 0
  }

  function ModelsOf(modelsDev: ModelsDev, row: Provider): seq<Listed> {
    if row.id in modelsDev then modelsDev[row.id] else []
  }

  function FromProviders(modelsDev: ModelsDev, n: nat): Catalogue
    requires n <= |PROVIDERS|
  {
    if n == 0 then map[]
    else
      var row := PROVIDERS[n - 1];
      var models := ModelsOf(modelsDev, row);
      FromProviders(modelsDev, n - 1) + FromModels(row, models, |models|)
  }

  function SkippedFrom(modelsDev: ModelsDev, n: nat): nat
    requires n <= |PROVIDERS|
  {
    if n == 0 then 0
    else
      var models := ModelsOf(modelsDev, PROVIDERS[n - 1]);
      SkippedFrom(modelsDev, n - 1) + SkippedOf(models, |models|)
  }

  function Converted(modelsDev: ModelsDev): (entries: Catalogue)
    ensures forall key :: key in entries ==> IsModelsDev(entries[key])
  {
    ProvidersAreMarked(modelsDev, |PROVIDERS|);
    FromProviders(modelsDev, |PROVIDERS|)
  }

  // ------------------------------------------------ what models.dev entries promise

  lemma {:induction false} PricesMean(cost: map<CostField, real>, n: nat, i: nat)
    requires i < n <= |COSTS|
    ensures COSTS[i].key in Prices(cost, n) <==> Charged(cost, COSTS[i].field)
    ensures Charged(cost, COSTS[i].field) ==> Prices(cost, n)[COSTS[i].key] == Number(cost[COSTS[i].field] / 1000000.0)
    ensures Prices(cost, n).Keys <= set k | 0 <= k < n :: COSTS[k].key
  {
    if i < n - 1 {
      PricesMean(cost, n - 1, i);
    } else if n > 1 {
      PricesMean(cost, n - 1, 0);
    }
    assert forall k :: 0 <= k < |COSTS| && k != n - 1 ==> COSTS[k].key != COSTS[n - 1].key;
  }

  lemma OtherFieldsArePlain(model: Model)
    ensures forall i :: 0 <= i < |COSTS| ==>
                          && COSTS[i].key !in Limits(model) && COSTS[i].key !in Capabilities(model)
                          && COSTS[i].key != Source
  {}

  lemma EntryHoldsPrices(row: Provider, model: Model, i: nat)
    requires i < |COSTS| && COSTS[i].key in Prices(model.cost, |COSTS|)
    ensures COSTS[i].key in EntryOf(row, model).fields
    ensures EntryOf(row, model).fields[COSTS[i].key] == Prices(model.cost, |COSTS|)[COSTS[i].key]
  {
    OtherFieldsArePlain(model);
  }

  /** A converted model charges for everything it is charged for, at the models.dev price. */
  lemma ChargesInFull(row: Provider, model: Model, field: CostField)
    requires !IsSkipped(model) && Charged(model.cost, field)
    ensures exists i ::
      && 0 <= i < |COSTS| && COSTS[i].field == field && COSTS[i].key in EntryOf(row, model).fields
      && EntryOf(row, model).fields[COSTS[i].key] == Number(model.cost[field] / 1000000.0)
  {
    assert !field.OtherCost?;
    var i := if field == Input then 0 else if field == Output then 1 else 2;
    assert COSTS[i].field == field;
    PricesMean(model.cost, |COSTS|, i);
    EntryHoldsPrices(row, model, i);
  }

  /** The i-th listed model is priced, and its entry goes under this key. */
  ghost predicate Provides(row: Provider, models: seq<Listed>, i: int, key: string) {
    0 <= i < |models| && !IsSkipped(models[i].model) && key == row.prefix + models[i].id
  }

  /** The converted keys are those of the priced models. */
  lemma {:induction false} ConvertedKeys(row: Provider, models: seq<Listed>, n: nat, key: string)
    requires n <= |models|
    ensures key in FromModels(row, models, n) <==> exists i :: i < n && Provides(row, models, i, key)
  {
    if n > 0 {
      ConvertedKeys(row, models, n - 1, key);
      var before := FromModels(row, models, n - 1);
      assert key in WithModel(before, row, models[n - 1]) <==> key in before || Provides(row, models, n - 1, key);
    }
  }

  /** Each holds the entry of the last priced model that goes under it. */
  lemma {:induction false} ConvertedEntry(row: Provider, models: seq<Listed>, n: nat, i: nat)
    requires i < n <= |models| && Provides(row, models, i, row.prefix + models[i].id)
    requires forall k :: i < k < n ==> !Provides(row, models, k, row.prefix + models[i].id)
    ensures
      var key, entries := row.prefix + models[i].id, FromModels(row, models, n);
      key in entries && entries[key] == EntryOf(row, models[i].model)
  {
    if i < n - 1 {
      ConvertedEntry(row, models, n - 1, i);
      assert !Provides(row, models, n - 1, row.prefix + models[i].id);
    }
  }

  lemma CapabilitiesMean(model: Model)
    ensures
      var flags := Capabilities(model);
      && (forall name :: name in flags ==> name.Supports? && flags[name] == Flag(true))
      && (Supports("function_calling") in flags <==> model.toolCall)
      && (Supports("reasoning") in flags <==> model.reasoning)
      && (Supports("vision") in flags <==> model.imageInput)
  {
    assert |"function_calling"| != |"reasoning"| && |"vision"| != |"reasoning"| && |"function_calling"| != |"vision"|;
  }

  lemma LimitsMean(model: Model)
    ensures
      var limits := Limits(model);
      && (forall name :: name in limits ==> name in {MaxInputTokens, MaxOutputTokens})
      && (MaxInputTokens in limits <==> model.context != 0)
      && (MaxOutputTokens in limits <==> model.output != 0 && model.kind != "embedding")
      && (model.context != 0 ==> limits[MaxInputTokens] == Number(model.context as real))
      && (MaxOutputTokens in limits ==> limits[MaxOutputTokens] == Number(model.output as real))
  {}

  /** Where the fields of a converted entry come from. */
  lemma FlagsComeFrom(row: Provider, model: Model, flag: string)
    ensures Supports(flag) in EntryOf(row, model).fields <==> Supports(flag) in Capabilities(model)
    ensures Supports(flag) in Capabilities(model) ==>
              EntryOf(row, model).fields[Supports(flag)] == Capabilities(model)[Supports(flag)]
  {
    NoPriceElsewhere(model.cost, |COSTS|);
    LimitsMean(model);
  }

  lemma LimitsComeFrom(row: Provider, model: Model, name: Name)
    requires name == MaxInputTokens || name == MaxOutputTokens
    ensures name in EntryOf(row, model).fields <==> name in Limits(model)
    ensures name in Limits(model) ==> EntryOf(row, model).fields[name] == Limits(model)[name]
  {
    NoPriceElsewhere(model.cost, |COSTS|);
    CapabilitiesMean(model);
  }

  /** What a converted entry says besides prices: only true flags, and no output limit for an
      embedding model. */
  lemma StatesOnlyWhatHolds(row: Provider, model: Model, flag: string)
    ensures
      var fields := EntryOf(row, model).fields;
      && (Supports(flag) in fields ==> fields[Supports(flag)] == Flag(true))
      && (Supports("function_calling") in fields <==> model.toolCall)
      && (Supports("reasoning") in fields <==> model.reasoning)
      && (Supports("vision") in fields <==> model.imageInput)
      && (MaxInputTokens in fields <==> model.context != 0)
      && (MaxOutputTokens in fields <==> model.output != 0 && model.kind != "embedding")
  {
    CapabilitiesMean(model);
    LimitsMean(model);
    FlagsComeFrom(row, model, flag);
    FlagsComeFrom(row, model, "function_calling");
    FlagsComeFrom(row, model, "reasoning");
    FlagsComeFrom(row, model, "vision");
    LimitsComeFrom(row, model, MaxInputTokens);
    LimitsComeFrom(row, model, MaxOutputTokens);
  }

  lemma {:induction false} NoPriceElsewhere(cost: map<CostField, real>, n: nat)
    requires n <= |COSTS|
    ensures forall name :: name in Prices(cost, n) ==>
                             name in {InputCostPerToken, OutputCostPerToken, CacheReadInputTokenCost}
  {
    if n > 0 {
      NoPriceElsewhere(cost, n - 1);
    }
  }

  lemma FirstLetter(p: nat, key: string)
    requires p < |PROVIDERS| && PROVIDERS[p].prefix <= key
    ensures key != "" && key[0] == ['p', 'g', 'v'][p]
  {
    assert key[0] == PROVIDERS[p].prefix[0];
  }

  lemma KeyHasPrefix(modelsDev: ModelsDev, p: nat, key: string)
    requires p < |PROVIDERS|
    requires var models := ModelsOf(modelsDev, PROVIDERS[p]); key in FromModels(PROVIDERS[p], models, |models|)
    ensures PROVIDERS[p].prefix <= key
  {
    var row := PROVIDERS[p];
    var models := ModelsOf(modelsDev, row);
    ConvertedKeys(row, models, |models|, key);
    var i :| i < |models| && Provides(row, models, i, key);
    assert row.prefix <= row.prefix + models[i].id;
  }

  /** No provider's models hide another's: each provider's entries are all in the result. */
  lemma {:induction false} ProvidersDoNotCollide(modelsDev: ModelsDev, n: nat, p: nat, key: string)
    requires p < n <= |PROVIDERS|
    requires var models := ModelsOf(modelsDev, PROVIDERS[p]); key in FromModels(PROVIDERS[p], models, |models|)
    ensures
      var models := ModelsOf(modelsDev, PROVIDERS[p]);
      && key in FromProviders(modelsDev, n)
      && FromProviders(modelsDev, n)[key] == FromModels(PROVIDERS[p], models, |models|)[key]
  {
    if p < n - 1 {
      ProvidersDoNotCollide(modelsDev, n - 1, p, key);
      KeyHasPrefix(modelsDev, p, key);
      FirstLetter(p, key);
      var last := ModelsOf(modelsDev, PROVIDERS[n - 1]);
      if key in FromModels(PROVIDERS[n - 1], last, |last|) {
        KeyHasPrefix(modelsDev, n - 1, key);
        FirstLetter(n - 1, key);
        assert false;
      }
    }
  }

  /** What is left out: models without a charge for input, and those charged by a rule this
      program does not know. */
  lemma SkippedExactly(model: Model)
    ensures IsSkipped(model)
            <==> (Input in model.cost ==> model.cost[Input] == 0.0) || exists text :: OtherCost(text) in model.cost
  {
    if field :| field in model.cost && field.OtherCost? {
      assert OtherCost(field.text) in model.cost;
    }
  }

  /** Its count. */
  lemma {:induction false} SkippedAreCounted(models: seq<Listed>, n: nat)
    requires n <= |models|
    ensures SkippedOf(models, n) == |set i: nat | i < n && IsSkipped(models[i].model)|
  {
    var all := set i: nat | i < n && IsSkipped(models[i].model);
    if n == 0 {
      assert all == {};
    } else {
      SkippedAreCounted(models, n - 1);
      var before := set i: nat | i < n - 1 && IsSkipped(models[i].model);
      assert all == before + if IsSkipped(models[n - 1].model) then {n - 1} else {};
    }
  }

  lemma SkippedInAll(modelsDev: ModelsDev)
    ensures
      var a, b, c := ModelsOf(modelsDev, PROVIDERS[0]), ModelsOf(modelsDev, PROVIDERS[1]),
                     ModelsOf(modelsDev, PROVIDERS[2]);
      SkippedFrom(modelsDev, |PROVIDERS|) == SkippedOf(a, |a|) + SkippedOf(b, |b|) + SkippedOf(c, |c|)
  {
    var first := ModelsOf(modelsDev, PROVIDERS[0]);
    assert SkippedFrom(modelsDev, 1) == SkippedOf(first, |first|);
  }

  /** Where each price goes: per token what models.dev lists per million, and nowhere else. */
  lemma PricedExactly(row: Provider, model: Model)
    ensures
      var fields := EntryOf(row, model).fields;
      && HoldsPrice(fields, InputCostPerToken, model.cost, Input)
      && HoldsPrice(fields, OutputCostPerToken, model.cost, Output)
      && HoldsPrice(fields, CacheReadInputTokenCost, model.cost, CacheRead)
  {
    PriceAt(row, model, 0);
    PriceAt(row, model, 1);
    PriceAt(row, model, 2);
    assert COSTS[0].key == InputCostPerToken && COSTS[1].key == OutputCostPerToken;
    assert COSTS[2].key == CacheReadInputTokenCost;
  }

  lemma PriceAt(row: Provider, model: Model, i: nat)
    requires i < |COSTS|
    ensures HoldsPrice(EntryOf(row, model).fields, COSTS[i].key, model.cost, COSTS[i].field)
  {
    PricesMean(model.cost, |COSTS|, i);
    if COSTS[i].key in Prices(model.cost, |COSTS|) {
      EntryHoldsPrices(row, model, i);
    } else {
      OtherFieldsArePlain(model);
      assert COSTS[i].key != LitellmProvider && COSTS[i].key != Mode;
    }
  }

  predicate HoldsPrice(fields: Fields, name: Name, cost: map<CostField, real>, field: CostField) {
    if field in cost && cost[field] != 0.0
    then name in fields && fields[name].Number? && fields[name].amount * 1000000.0 == cost[field]
    else name !in fields
  }

  /** What else an entry holds: its provider, its mode, its source, and its limits. */
  lemma DescribedExactly(row: Provider, model: Model)
    ensures
      var fields := EntryOf(row, model).fields;
      && LitellmProvider in fields && fields[LitellmProvider] == Text(row.provider)
      && Mode in fields && fields[Mode] == Text(if model.kind == "embedding" then "embedding" else row.mode)
      && Source in fields && fields[Source] == Text("models.dev")
  {
    NoPriceElsewhere(model.cost, |COSTS|);
    assert LitellmProvider !in Limits(model) && Mode !in Limits(model);
    assert LitellmProvider !in Capabilities(model) && Mode !in Capabilities(model);
  }

  lemma LimitedExactly(row: Provider, model: Model)
    ensures
      var fields := EntryOf(row, model).fields;
      && (MaxInputTokens in fields <==> model.context > 0)
      && (MaxInputTokens in fields ==> fields[MaxInputTokens] == Number(model.context as real))
      && (MaxOutputTokens in fields <==> model.output > 0 && model.kind != "embedding")
      && (MaxOutputTokens in fields ==> fields[MaxOutputTokens] == Number(model.output as real))
  {
    LimitsMean(model);
    LimitsComeFrom(row, model, MaxInputTokens);
    LimitsComeFrom(row, model, MaxOutputTokens);
  }

  /** A provider's list holds a priced model that goes under this key. */
  ghost predicate ListsUnder(modelsDev: ModelsDev, provider: string, prefix: string, key: string) {
    provider in modelsDev
    && exists i :: 0 <= i < |modelsDev[provider]| && !IsSkipped(modelsDev[provider][i].model)
                   && key == prefix + modelsDev[provider][i].id
  }

  lemma ConvertedOf(modelsDev: ModelsDev, p: nat, key: string)
    requires p < |PROVIDERS|
    ensures
      var row := PROVIDERS[p];
      var models := ModelsOf(modelsDev, row);
      key in FromModels(row, models, |models|) <==> ListsUnder(modelsDev, row.id, row.prefix, key)
  {
    var row := PROVIDERS[p];
    var models := ModelsOf(modelsDev, row);
    ConvertedKeys(row, models, |models|, key);
    if i :| i < |models| && Provides(row, models, i, key) {
      assert modelsDev[row.id][i] == models[i];
    }
    if ListsUnder(modelsDev, row.id, row.prefix, key) {
      var i :| 0 <= i < |modelsDev[row.id]| && !IsSkipped(modelsDev[row.id][i].model)
        && key == row.prefix + modelsDev[row.id][i].id;
      assert Provides(row, models, i, key);
    }
  }

  /** The three providers converted, each under its own prefix. */
  lemma ConvertedExactly(modelsDev: ModelsDev, key: string)
    ensures key in Converted(modelsDev)
            <==> || ListsUnder(modelsDev, "perplexity-agent", "perplexity/", key)
                 || ListsUnder(modelsDev, "google", "gemini/", key)
                 || ListsUnder(modelsDev, "google-vertex", "vertex_ai/", key)
  {
    ConvertedOf(modelsDev, 0, key);
    ConvertedOf(modelsDev, 1, key);
    ConvertedOf(modelsDev, 2, key);
    assert PROVIDERS[0].id == "perplexity-agent" && PROVIDERS[0].prefix == "perplexity/";
    assert PROVIDERS[1].id == "google" && PROVIDERS[1].prefix == "gemini/";
    assert PROVIDERS[2].id == "google-vertex" && PROVIDERS[2].prefix == "vertex_ai/";
    OneMoreProvider(modelsDev, 0, key);
    OneMoreProvider(modelsDev, 1, key);
    OneMoreProvider(modelsDev, 2, key);
  }

  lemma OneMoreProvider(modelsDev: ModelsDev, p: nat, key: string)
    requires p < |PROVIDERS|
    ensures
      var models := ModelsOf(modelsDev, PROVIDERS[p]);
      key in FromProviders(modelsDev, p + 1)
      <==> key in FromProviders(modelsDev, p) || key in FromModels(PROVIDERS[p], models, |models|)
  {}

  lemma {:induction false} EntriesAreOf(row: Provider, models: seq<Listed>, n: nat, key: string)
    requires n <= |models| && key in FromModels(row, models, n)
    ensures exists model :: FromModels(row, models, n)[key] == EntryOf(row, model)
  {
    if key in FromModels(row, models, n - 1) {
      EntriesAreOf(row, models, n - 1, key);
    }
    if !IsSkipped(models[n - 1].model) && key == row.prefix + models[n - 1].id {
      assert FromModels(row, models, n)[key] == EntryOf(row, models[n - 1].model);
    }
  }

  /** An entry of this provider, for this use or as an embedding model. */
  predicate IsNamed(entry: Entry, provider: string, mode: string) {
    && entry.Dict? && LitellmProvider in entry.fields && entry.fields[LitellmProvider] == Text(provider)
    && Mode in entry.fields && (entry.fields[Mode] == Text(mode) || entry.fields[Mode] == Text("embedding"))
  }

  lemma NamedAfter(modelsDev: ModelsDev, p: nat, key: string)
    requires p < |PROVIDERS|
    requires var models := ModelsOf(modelsDev, PROVIDERS[p]); key in FromModels(PROVIDERS[p], models, |models|)
    ensures key in Converted(modelsDev) && PROVIDERS[p].prefix <= key
    ensures IsNamed(Converted(modelsDev)[key], PROVIDERS[p].provider, PROVIDERS[p].mode)
  {
    var row := PROVIDERS[p];
    var models := ModelsOf(modelsDev, row);
    ProvidersDoNotCollide(modelsDev, |PROVIDERS|, p, key);
    KeyHasPrefix(modelsDev, p, key);
    EntriesAreOf(row, models, |models|, key);
    var model :| FromModels(row, models, |models|)[key] == EntryOf(row, model);
    DescribedExactly(row, model);
  }

  /** Each entry names the provider its prefix stands for, and its mode. */
  lemma ConvertedNames(modelsDev: ModelsDev, key: string)
    requires key in Converted(modelsDev)
    ensures
      var entry := Converted(modelsDev)[key];
      || (IsNamed(entry, "perplexity", "responses") && "perplexity/" <= key)
      || (IsNamed(entry, "gemini", "chat") && "gemini/" <= key)
      || (IsNamed(entry, "vertex_ai", "chat") && "vertex_ai/" <= key)
  {
    OneMoreProvider(modelsDev, 0, key);
    OneMoreProvider(modelsDev, 1, key);
    OneMoreProvider(modelsDev, 2, key);
    var models0, models1 := ModelsOf(modelsDev, PROVIDERS[0]), ModelsOf(modelsDev, PROVIDERS[1]);
    if key in FromModels(PROVIDERS[0], models0, |models0|) {
      NamedAfter(modelsDev, 0, key);
    } else if key in FromModels(PROVIDERS[1], models1, |models1|) {
      NamedAfter(modelsDev, 1, key);
    } else {
      NamedAfter(modelsDev, 2, key);
    }
  }

  method BuildPrices(cost: map<CostField, real>, entry: Fields) returns (priced: Fields)
    ensures priced == entry + Prices(cost, |COSTS|)
  {
    priced := entry;
    for i := 0 to |COSTS|
      invariant priced == entry + Prices(cost, i)
    {
      if Charged(cost, COSTS[i].field) {
        priced := priced[COSTS[i].key := Number(cost[COSTS[i].field] / 1000000.0)];
      }
    }
  }

  method BuildLimits(model: Model, entry: Fields) returns (limited: Fields)
    ensures limited == entry + Limits(model)
  {
    limited := entry;
    if model.context != 0 {
      limited := limited[MaxInputTokens := Number(model.context as real)];
    }
    if model.output != 0 && model.kind != "embedding" {
      limited := limited[MaxOutputTokens := Number(model.output as real)];
    }
  }

  method BuildCapabilities(model: Model, entry: Fields) returns (capable: Fields)
    ensures capable == entry + Capabilities(model)
  {
    capable := entry;
    if model.toolCall {
      capable := capable[Supports("function_calling") := Flag(true)];
    }
    if model.reasoning {
      capable := capable[Supports("reasoning") := Flag(true)];
    }
    if model.imageInput {
      capable := capable[Supports("vision") := Flag(true)];
    }
  }

  method BuildEntry(row: Provider, model: Model) returns (entry: Entry)
    ensures entry == EntryOf(row, model)
  {
    var mode := row.mode;
    if model.kind == "embedding" {
      mode := "embedding";
    }
    var fields: Fields := map[LitellmProvider := Text(row.provider), Mode := Text(mode)];
    fields := BuildPrices(model.cost, fields);
    fields := BuildLimits(model, fields);
    fields := BuildCapabilities(model, fields);
    entry := Dict(fields + map[Source := Text(MODELS_DEV_SOURCE)]);
  }

  method ConvertProvider(row: Provider, models: seq<Listed>) returns (entries: Catalogue, skipped: nat)
    ensures entries == FromModels(row, models, |models|) && skipped == SkippedOf(models, |models|)
  {
    entries, skipped := map[], 0;
    for m := 0 to |models|
      invariant entries == FromModels(row, models, m) && skipped == SkippedOf(models, m)
    {
      if IsSkipped(models[m].model) {
        skipped := skipped + 1;
      } else {
        var entry := BuildEntry(row, models[m].model);
        entries := entries[row.prefix + models[m].id := entry];
      }
    }
  }

  method Convert(modelsDev: ModelsDev) returns (entries: Catalogue, skipped: nat)
    ensures entries == Converted(modelsDev) && skipped == SkippedFrom(modelsDev, |PROVIDERS|)
  {
    entries, skipped := map[], 0;
    for p := 0 to |PROVIDERS|
      invariant entries == FromProviders(modelsDev, p) && skipped == SkippedFrom(modelsDev, p)
    {
      var more, bad := ConvertProvider(PROVIDERS[p], ModelsOf(modelsDev, PROVIDERS[p]));
      entries := entries + more;
      skipped := skipped + bad;
    }
  }

  // ------------------------------------------------------------------------ merging

  predicate Carries(entry: Entry, prior: Entry, name: Name) {
    entry.Dict? && prior.Dict? && name.Supports? && name in prior.fields
    && prior.fields[name] == Flag(true) && name !in entry.fields
  }

  function Carried(entry: Entry, prior: Entry): Entry {
    if entry.Dict? && prior.Dict?
    then Dict(entry.fields + map name | name in prior.fields && Carries(entry, prior, name) :: Flag(true))
    else entry
  }

  function Own(current: Catalogue): Catalogue {
    map key | key in current && !IsModelsDev(current[key]) :: current[key]
  }

  /** What the new catalogue holds, key by key. */
  function Merged(upstream: Catalogue, current: Catalogue, modelsDev: ModelsDev): Catalogue {
    MergedFrom(upstream, Own(current), Converted(modelsDev))
  }

  function MergedFrom(upstream: Catalogue, own: Catalogue, added: Catalogue): Catalogue {
    map key | key in upstream.Keys + own.Keys + added.Keys ::
      if key in upstream then (if key in own then Carried(upstream[key], own[key]) else upstream[key])
      else if key in own then own[key]
      else added[key]
  }

  datatype Counts = Counts(upstream: nat, kept: nat, filled: nat, skipped: nat, carried: nat)

  ghost predicate IsCarried(entries: Catalogue, own: Catalogue, keys: set<string>, pair: (string, Name)) {
    && pair.0 in keys && pair.0 in entries && pair.0 in own
    && Carries(entries[pair.0], own[pair.0], pair.1)
  }

  /** The flags carried into the entries of some keys, one pair for each. */
  ghost predicate AreCarried(entries: Catalogue, own: Catalogue, keys: set<string>, pairs: set<(string, Name)>)
  {
    forall pair :: pair in pairs <==> IsCarried(entries, own, keys, pair)
  }

  ghost predicate AreCarriedNames(entry: Entry, prior: Entry, done: set<Name>, names: set<Name>) {
    forall name :: name in names <==> name in done && Carries(entry, prior, name)
  }

  ghost function CarriedInto(entries: Catalogue, own: Catalogue, keys: set<string>): Catalogue {
    map key | key in entries :: if key in keys && key in own then Carried(entries[key], own[key]) else entries[key]
  }

  function WithFlags(fields: Fields, names: set<Name>): Fields {
    fields + map name | name in names :: Flag(true)
  }

  /** The flags of the names done so far have been carried into the fields. */
  ghost predicate CarriedSoFar(entry: Entry, prior: Entry, done: set<Name>, names: set<Name>, fields: Fields) {
    entry.Dict? && AreCarriedNames(entry, prior, done, names) && fields == WithFlags(entry.fields, names)
  }

  lemma OneMoreName(entry: Entry, prior: Entry, done: set<Name>, names: set<Name>, fields: Fields, name: Name)
    requires prior.Dict? && name in prior.fields && name !in done && CarriedSoFar(entry, prior, done, names, fields)
    ensures name in fields <==> name in entry.fields
    ensures Carries(entry, prior, name) ==> name !in names
    ensures Carries(entry, prior, name) ==>
              CarriedSoFar(entry, prior, done + {name}, names + {name}, fields[name := Flag(true)])
    ensures !Carries(entry, prior, name) ==> CarriedSoFar(entry, prior, done + {name}, names, fields)
  {
    assert WithFlags(entry.fields, names + {name}) == WithFlags(entry.fields, names)[name := Flag(true)];
  }

  lemma AllNames(entry: Entry, prior: Entry, names: set<Name>, fields: Fields)
    requires prior.Dict? && CarriedSoFar(entry, prior, prior.fields.Keys, names, fields)
    ensures Carried(entry, prior) == Dict(fields)
    ensures forall name :: name in names <==> Carries(entry, prior, name)
  {
    assert Carried(entry, prior).fields == fields;
  }

  /** The loop over one old entry's flags. */
  method CarryFlags(entry: Entry, prior: Entry) returns (carried: Entry, count: nat, ghost names: set<Name>)
    ensures carried == Carried(entry, prior) && count == |names|
    ensures forall name :: name in names <==> Carries(entry, prior, name)
  {
    carried, count, names := entry, 0, {};
    if !prior.Dict? || !entry.Dict? {
      return;
    }
    var fields, count', names' := CarryNames(entry, prior, prior.fields.Keys);
    AllNames(entry, prior, names', fields);
    carried, count, names := Dict(fields), count', names';
  }

  method CarryNames(entry: Entry, prior: Entry, all: set<Name>)
    returns (fields: Fields, count: nat, ghost names: set<Name>)
    requires entry.Dict? && prior.Dict? && all <= prior.fields.Keys
    ensures CarriedSoFar(entry, prior, all, names, fields) && count == |names|
  {
    fields, count, names := entry.fields, 0, {};
    var todo := all;
    ghost var done: set<Name> := {};
    while todo != {}
      invariant todo <= all && done == all - todo
      invariant CarriedSoFar(entry, prior, done, names, fields) && count == |names|
      decreases |todo|
    {
      var name :| name in todo;
      OneMoreName(entry, prior, done, names, fields, name);
      if name.Supports? && prior.fields[name] == Flag(true) && name !in fields {
        fields := fields[name := Flag(true)];
        names := names + {name};
        count := count + 1;
      }
      todo, done := todo - {name}, done + {name};
    }
    assert done == all;
  }

  ghost function PairsWith<K, N>(key: K, names: set<N>): set<(K, N)> {
    set name | name in names :: (key, name)
  }

  lemma {:induction false} OnePairEach<K, N>(key: K, names: set<N>)
    ensures |PairsWith(key, names)| == |names|
  {
    if names == {} {
      assert PairsWith(key, names) == {};
    } else {
      var name :| name in names;
      OnePairEach(key, names - {name});
      assert PairsWith(key, names) == PairsWith(key, names - {name}) + {(key, name)};
    }
  }

  lemma MorePairs<K, N>(pairs: set<(K, N)>, key: K, names: set<N>)
    requires forall pair :: pair in pairs ==> pair.0 != key
    ensures |pairs + PairsWith(key, names)| == |pairs| + |names|
    ensures forall pair :: pair in pairs + PairsWith(key, names)
                           <==> pair in pairs || (pair.0 == key && pair.1 in names)
  {
    OnePairEach(key, names);
    assert pairs !! PairsWith(key, names);
  }

  /** The flags of the keys done so far have been carried into the catalogue. */
  ghost predicate CarriedThrough(entries: Catalogue, own: Catalogue, done: set<string>, merged: Catalogue,
                                 pairs: set<(string, Name)>)
  {
    AreCarried(entries, own, done, pairs) && merged == CarriedInto(entries, own, done)
  }

  lemma OneMoreKey(entries: Catalogue, own: Catalogue, done: set<string>, merged: Catalogue, key: string,
                   pairs: set<(string, Name)>, names: set<Name>)
    requires key !in done && key in entries && key in own && CarriedThrough(entries, own, done, merged, pairs)
    requires forall name :: name in names <==> Carries(entries[key], own[key], name)
    ensures |pairs + PairsWith(key, names)| == |pairs| + |names|
    ensures CarriedThrough(entries, own, done + {key}, merged[key := Carried(entries[key], own[key])],
                           pairs + PairsWith(key, names))
  {
    MorePairs(pairs, key, names);
    var all := pairs + PairsWith(key, names);
    forall pair ensures pair in all <==> IsCarried(entries, own, done + {key}, pair) {
      assert IsCarried(entries, own, done + {key}, pair) <==>
        IsCarried(entries, own, done, pair) || (pair.0 == key && pair.1 in names);
    }
    OneKeyInto(entries, own, done, key);
  }

  lemma OneKeyInto(entries: Catalogue, own: Catalogue, done: set<string>, key: string)
    requires key in entries && key in own
    ensures CarriedInto(entries, own, done + {key})
            == CarriedInto(entries, own, done)[key := Carried(entries[key], own[key])]
  {}

  lemma OneForeignKey(entries: Catalogue, own: Catalogue, done: set<string>, merged: Catalogue, key: string,
                      pairs: set<(string, Name)>)
    requires key !in own && CarriedThrough(entries, own, done, merged, pairs)
    ensures CarriedThrough(entries, own, done + {key}, merged, pairs)
  {
    forall pair ensures pair in pairs <==> IsCarried(entries, own, done + {key}, pair) {
      assert IsCarried(entries, own, done + {key}, pair) <==> IsCarried(entries, own, done, pair);
    }
    assert CarriedInto(entries, own, done + {key}) == CarriedInto(entries, own, done);
  }

  lemma OneLess<K>(all: set<K>, todo: set<K>, key: K)
    requires key in todo && todo <= all
    ensures all - (todo - {key}) == (all - todo) + {key} && todo - {key} < todo
  {}

  lemma NoneCarried(entries: Catalogue, own: Catalogue)
    ensures CarriedThrough(entries, own, {}, entries, {})
  {}

  /** The loop that carries flags forward over the whole catalogue. */
  method CarryAll(entries: Catalogue, own: Catalogue)
    returns (merged: Catalogue, count: nat, ghost pairs: set<(string, Name)>)
    ensures merged == CarriedInto(entries, own, entries.Keys)
    ensures count == |pairs| && AreCarried(entries, own, entries.Keys, pairs)
  {
    merged, count, pairs := entries, 0, {};
    var all := entries.Keys;
    var todo := all;
    NoneCarried(entries, own);
    assert all - todo == {} && all - {} == all;
    while todo != {}
      invariant todo <= all
      invariant CarriedThrough(entries, own, all - todo, merged, pairs) && count == |pairs|
      decreases todo
    {
      var key :| key in todo;
      OneLess(all, todo, key);
      if key in own {
        var entry, more, names := CarryFlags(entries[key], own[key]);
        OneMoreKey(entries, own, all - todo, merged, key, pairs, names);
        merged := merged[key := entry];
        count := count + more;
        pairs := pairs + PairsWith(key, names);
      } else {
        OneForeignKey(entries, own, all - todo, merged, key, pairs);
      }
      todo := todo - {key};
    }
  }

  lemma DisjointUnion<K, V>(a: map<K, V>, b: map<K, V>)
    requires a.Keys !! b.Keys
    ensures |a + b| == |a| + |b|
  {
    assert (a + b).Keys == a.Keys + b.Keys;
  }

  function Without<K, V>(entries: map<K, V>, keys: set<K>): (rest: map<K, V>)
    ensures rest.Keys == entries.Keys - keys
  {
    map key | key in entries && key !in keys :: entries[key]
  }

  lemma MergedAt(upstream: Catalogue, own: Catalogue, added: Catalogue, carried: Catalogue, key: string)
    requires
      var entries := upstream + Without(own, upstream.Keys);
      carried == CarriedInto(entries, own, entries.Keys)
    ensures
      var merged := carried + Without(added, carried.Keys);
      && (key in merged <==> key in MergedFrom(upstream, own, added))
      && (key in merged ==> merged[key] == MergedFrom(upstream, own, added)[key])
  {
    if key in own && key !in upstream {
      CarriedSelf(own[key]);
    }
  }

  lemma SameMap<K, V>(a: map<K, V>, b: map<K, V>)
    requires forall key :: key in a <==> key in b
    requires forall key :: key in a ==> a[key] == b[key]
    ensures a == b
  {}

  lemma MergedInSteps(upstream: Catalogue, own: Catalogue, added: Catalogue, carried: Catalogue)
    requires
      var entries := upstream + Without(own, upstream.Keys);
      carried == CarriedInto(entries, own, entries.Keys)
    ensures carried + Without(added, carried.Keys) == MergedFrom(upstream, own, added)
  {
    var merged := carried + Without(added, carried.Keys);
    forall key
      ensures key in merged <==> key in MergedFrom(upstream, own, added)
      ensures key in merged ==> merged[key] == MergedFrom(upstream, own, added)[key]
    {
      MergedAt(upstream, own, added, carried, key);
    }
    SameMap(merged, MergedFrom(upstream, own, added));
  }

  lemma CarriedKeys(upstream: Catalogue, own: Catalogue)
    ensures (upstream + Without(own, upstream.Keys)).Keys == upstream.Keys + own.Keys
  {}

  /** Three disjoint parts make up the whole. */
  lemma SizesAdd<K, V>(upstream: map<K, V>, own: map<K, V>, added: map<K, V>, carried: map<K, V>)
    requires carried.Keys == upstream.Keys + own.Keys
    ensures
      |carried + Without(added, carried.Keys)|
      == |upstream| + |own.Keys - upstream.Keys| + |added.Keys - (upstream.Keys + own.Keys)|
  {
    DisjointUnion(carried, Without(added, carried.Keys));
    assert |Without(added, carried.Keys)| == |added.Keys - carried.Keys|;
    assert carried.Keys == upstream.Keys + (own.Keys - upstream.Keys);
    assert |carried| == |upstream.Keys| + |own.Keys - upstream.Keys|;
  }

  /** The merge: the new catalogue key by key, and counts that add up to it. */
  method Merge(upstream: Catalogue, current: Catalogue, modelsDev: ModelsDev)
    returns (merged: Catalogue, counts: Counts, ghost flags: set<(string, Name)>)
    ensures merged == Merged(upstream, current, modelsDev)
    ensures counts.upstream == |upstream| && counts.kept == |Own(current).Keys - upstream.Keys|
    ensures counts.filled == |Converted(modelsDev).Keys - (upstream.Keys + Own(current).Keys)|
    ensures |merged| == counts.upstream + counts.kept + counts.filled
    ensures counts.skipped == SkippedFrom(modelsDev, |PROVIDERS|)
    ensures counts.carried == |flags| && AreCarried(upstream, Own(current), upstream.Keys, flags)
  {
    var own := Own(current);
    var kept := Without(own, upstream.Keys);
    var base, carried;
    base, carried, flags := CarryOver(upstream, own, kept);
    var added, skipped := Convert(modelsDev);
    var filled := Without(added, base.Keys);
    MergedInSteps(upstream, own, added, base);
    SizesAdd(upstream, own, added, base);
    merged := base + filled;
    counts := Counts(|upstream|, |kept.Keys|, |filled.Keys|, skipped, carried);
  }

  /** The upstream and the kept entries, with the flags carried into them. */
  method CarryOver(upstream: Catalogue, own: Catalogue, kept: Catalogue)
    returns (base: Catalogue, carried: nat, ghost flags: set<(string, Name)>)
    requires kept == Without(own, upstream.Keys)
    ensures base == CarriedInto(upstream + kept, own, (upstream + kept).Keys) && base.Keys == upstream.Keys + own.Keys
    ensures carried == |flags| && AreCarried(upstream, own, upstream.Keys, flags)
  {
    base, carried, flags := CarryAll(upstream + kept, own);
    KeptCarriesNothing(upstream, own, kept, flags);
    CarriedKeys(upstream, own);
  }

  /** An entry upstream dropped is its own old entry: it states all its flags already. */
  lemma KeptCarriesNothing(upstream: Catalogue, own: Catalogue, kept: Catalogue, pairs: set<(string, Name)>)
    requires kept == Without(own, upstream.Keys)
    requires AreCarried(upstream + kept, own, (upstream + kept).Keys, pairs)
    ensures AreCarried(upstream, own, upstream.Keys, pairs)
  {
    var entries := upstream + kept;
    forall pair ensures pair in pairs <==> IsCarried(upstream, own, upstream.Keys, pair) {
      assert pair in pairs <==> IsCarried(entries, own, entries.Keys, pair);
    }
  }

  // ----------------------------------------------------------------------- theorems

  lemma CarriedKeepsMark(entry: Entry, prior: Entry)
    ensures IsModelsDev(Carried(entry, prior)) == IsModelsDev(entry)
  {
  }

  lemma CarriedTwice(entry: Entry, prior: Entry)
    ensures Carried(entry, Carried(entry, prior)) == Carried(entry, prior)
  {
    if entry.Dict? && prior.Dict? {
      var once := Carried(entry, prior);
      assert Carried(entry, once).fields == once.fields;
    }
  }

  /** An upstream entry carrying the models.dev mark into which a flag is carried. */
  ghost predicate CarriesIntoMarked(upstream: Catalogue, current: Catalogue) {
    exists key, name ::
      && key in upstream && key in current && IsModelsDev(upstream[key]) && !IsModelsDev(current[key])
      && Carries(upstream[key], current[key], name)
  }

  lemma MergedAgain(upstream: Catalogue, current: Catalogue, modelsDev: ModelsDev, key: string)
    requires key in Merged(upstream, current, modelsDev)
    ensures
      var once := Merged(upstream, current, modelsDev);
      var twice := Merged(upstream, once, modelsDev);
      key in twice && twice[key] == if key in upstream && IsModelsDev(upstream[key]) then upstream[key] else once[key]
  {
    if key in upstream && key in Own(current) {
      CarriedKeepsMark(upstream[key], current[key]);
      CarriedTwice(upstream[key], current[key]);
    }
    if key in upstream && key !in Own(current) {
      CarriedSelf(upstream[key]);
    }
  }

  lemma CarriedSelf(entry: Entry)
    ensures Carried(entry, entry) == entry
  {
    if entry.Dict? {
      assert Carried(entry, entry).fields == entry.fields;
    }
  }

  lemma CarriedUnchanged(entry: Entry, prior: Entry)
    ensures Carried(entry, prior) == entry <==> forall name :: !Carries(entry, prior, name)
  {
    if entry.Dict? && prior.Dict? {
      if name :| Carries(entry, prior, name) {
        assert name in Carried(entry, prior).fields;
      } else {
        assert Carried(entry, prior).fields == entry.fields;
      }
    }
  }

  /** Merging the result again with the same sources changes nothing, exactly when no flag was
      carried into an upstream entry that itself carries the models.dev mark. */
  lemma MergeIsIdempotent(upstream: Catalogue, current: Catalogue, modelsDev: ModelsDev)
    ensures
      var once := Merged(upstream, current, modelsDev);
      Merged(upstream, once, modelsDev) == once <==> !CarriesIntoMarked(upstream, current)
  {
    var once := Merged(upstream, current, modelsDev);
    var twice := Merged(upstream, once, modelsDev);
    forall key | key in once ensures key in twice {
      MergedAgain(upstream, current, modelsDev, key);
    }
    forall key | key in twice ensures key in once {}
    if CarriesIntoMarked(upstream, current) {
      var key, name :| key in upstream && key in current && IsModelsDev(upstream[key]) && !IsModelsDev(current[key])
        && Carries(upstream[key], current[key], name);
      MergedAgain(upstream, current, modelsDev, key);
      CarriedUnchanged(upstream[key], current[key]);
      assert twice[key] != once[key];
    } else {
      forall key | key in once ensures twice[key] == once[key] {
        MergedAgain(upstream, current, modelsDev, key);
        if key in upstream && key in Own(current) {
          CarriedUnchanged(upstream[key], current[key]);
        }
      }
    }
  }

  const MarkedUpstream: Catalogue := map["m" := Dict(map[Source := Text(MODELS_DEV_SOURCE)])]
  const FlaggedCurrent: Catalogue := map["m" := Dict(map[Supports("vision") := Flag(true)])]

  /** Where it is not: the flag is carried once, and the entry then counts as derived. */
  lemma SecondMergeDrops(modelsDev: ModelsDev)
    ensures CarriesIntoMarked(MarkedUpstream, FlaggedCurrent)
    ensures
      var once := Merged(MarkedUpstream, FlaggedCurrent, modelsDev);
      && HoldsTrue(once, "m", Supports("vision"))
      && !States(Merged(MarkedUpstream, once, modelsDev), "m", Supports("vision"))
  {
    assert Carries(MarkedUpstream["m"], FlaggedCurrent["m"], Supports("vision"));
    MergedAgain(MarkedUpstream, FlaggedCurrent, modelsDev, "m");
  }

  ghost predicate States(catalogue: Catalogue, key: string, name: Name) {
    key in catalogue && catalogue[key].Dict? && name in catalogue[key].fields
  }

  ghost predicate HoldsTrue(catalogue: Catalogue, key: string, name: Name) {
    States(catalogue, key, name) && catalogue[key].fields[name] == Flag(true)
  }

  /** An own entry's true flag is lost exactly when upstream states that flag otherwise, or
      replaces the entry by something that is not a dictionary. */
  lemma TrueFlagSurvives(upstream: Catalogue, current: Catalogue, modelsDev: ModelsDev, key: string, name: Name)
    requires HoldsTrue(current, key, name) && name.Supports? && !IsModelsDev(current[key])
    ensures
      HoldsTrue(Merged(upstream, current, modelsDev), key, name)
      <==> (key in upstream ==> upstream[key].Dict? && (States(upstream, key, name) ==> HoldsTrue(upstream, key, name)))
  {
    if key in upstream && upstream[key].Dict? {
      assert name !in upstream[key].fields ==> Carries(upstream[key], current[key], name);
    }
  }

  /** Upstream wins: whatever it states is in the result, and all that is added to its entry
      is a true capability flag it does not state. */
  lemma UpstreamWins(upstream: Catalogue, current: Catalogue, modelsDev: ModelsDev, key: string)
    requires key in upstream
    ensures
      var merged := Merged(upstream, current, modelsDev);
      && key in merged && merged[key].Dict? == upstream[key].Dict?
      && (!upstream[key].Dict? ==> merged[key] == upstream[key])
      && (upstream[key].Dict? ==> forall name :: name in merged[key].fields ==>
            if name in upstream[key].fields then merged[key].fields[name] == upstream[key].fields[name]
            else name.Supports? && HoldsTrue(merged, key, name) && HoldsTrue(current, key, name))
  {}

  /** What upstream does not list stays as it is, unless it was itself filled in from models.dev;
      and only what neither lists is filled in. */
  lemma KeptAsIs(upstream: Catalogue, current: Catalogue, modelsDev: ModelsDev, key: string)
    requires key !in upstream
    ensures
      var merged := Merged(upstream, current, modelsDev);
      if key in current && (current[key].NotDict? || Source !in current[key].fields
                            || current[key].fields[Source] != Text("models.dev"))
      then key in merged && merged[key] == current[key]
      else if key in Converted(modelsDev) then key in merged && merged[key] == Converted(modelsDev)[key]
      else key !in merged
  {}

  datatype Sources = Sources(upstream: Catalogue, modelsDev: ModelsDev)

  /** The catalogue after a run of updates, each on what the last one wrote. */
  function Updates(current: Catalogue, runs: seq<Sources>): Catalogue
    decreases runs
  {
    if runs == [] then current
    else Updates(Merged(runs[0].upstream, current, runs[0].modelsDev), runs[1..])
  }

  /** Over any run of updates whose upstream leaves the flag unsaid, and does not put the
      models.dev mark or a non-dictionary in the entry's place, a true flag stays. */
  lemma {:induction false} FlagSurvivesUpdates(current: Catalogue, runs: seq<Sources>, key: string, name: Name)
    requires HoldsTrue(current, key, name) && name.Supports? && !IsModelsDev(current[key])
    requires forall i :: 0 <= i < |runs| && key in runs[i].upstream ==>
               var entry := runs[i].upstream[key];
               entry.Dict? && !IsModelsDev(entry) && name !in entry.fields
    ensures HoldsTrue(Updates(current, runs), key, name)
    decreases runs
  {
    if runs != [] {
      var upstream := runs[0].upstream;
      TrueFlagSurvives(upstream, current, runs[0].modelsDev, key, name);
      if key in upstream {
        CarriedKeepsMark(upstream[key], current[key]);
      }
      FlagSurvivesUpdates(Merged(upstream, current, runs[0].modelsDev), runs[1..], key, name);
    }
  }

  /** What models.dev filled is derived again each run: a marked entry that upstream does not
      list is what models.dev says now. */
  lemma FilledIsCurrent(upstream: Catalogue, current: Catalogue, modelsDev: ModelsDev, key: string)
    requires key !in upstream
    ensures
      var merged := Merged(upstream, current, modelsDev);
      key in merged && IsModelsDev(merged[key])
      <==> key in Converted(modelsDev) && (key in current ==> IsModelsDev(current[key]))
    ensures
      var merged := Merged(upstream, current, modelsDev);
      key in merged && IsModelsDev(merged[key]) ==> merged[key] == Converted(modelsDev)[key]
  {}
}
