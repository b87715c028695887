/** The embedding configuration derived from the process environment (lib/env.ts). */
module Env {
  import opened Wrappers

  const SmallModel: string := "text-embedding-3-small"
  const LargeModel: string := "text-embedding-3-large"

  /** The dimensionality used when nothing else decides it. */
  const DefaultDimensions: nat := 1536

  /** The environment variables the configuration reads; `None` is an unset variable.
      EMBEDDING_DIMENSIONS is taken as an already-parsed natural number. */
  datatype Environment = Environment(
    databaseUrl: Option<string>,
    openaiApiKey: Option<string>,
    embeddingModel: Option<string>,
    embeddingDimensions: Option<nat>)

  /** The exported `env` object. */
  datatype Config = Config(
    databaseUrl: Option<string>,
    openaiApiKey: Option<string>,
    embeddingModel: string,
    embeddingDimensions: nat)

  /** `EMBEDDING_MODEL ?? 'text-embedding-3-small'`. */
  function ModelName(model: Option<string>): (name: string)
    ensures model.None? ==> name == SmallModel
    ensures model.Some? ==> name == model.value
  {
    model.GetOr(SmallModel)
  }

  /** The two known models fix the dimensionality; any other model takes the override, else 1536. */
  function Dims(model: Option<string>, override: Option<nat>): (d: nat)
    ensures d == 3072 || d == 1536 || override == Some(d)
  {
    var name := ModelName(model);
    if name == LargeModel then 3072
    else if name == SmallModel then 1536
    else override.GetOr(DefaultDimensions)
  }

  /** Builds `env`: the URL and the key pass through, the model and the dimensionality are derived. */
  function Load(e: Environment): (c: Config)
    ensures c.databaseUrl == e.databaseUrl && c.openaiApiKey == e.openaiApiKey
    ensures c.embeddingModel == ModelName(e.embeddingModel)
    ensures c.embeddingDimensions == Dims(e.embeddingModel, e.embeddingDimensions)
    ensures c.embeddingModel == LargeModel ==> c.embeddingDimensions == 3072
    ensures c.embeddingModel == SmallModel ==> c.embeddingDimensions == 1536
  {
    Config(e.databaseUrl, e.openaiApiKey, ModelName(e.embeddingModel),
           Dims(e.embeddingModel, e.embeddingDimensions))
  }

  /** The large model yields 3072 dimensions whatever the override is. */
  lemma LargeModelDims(override: Option<nat>)
    ensures Dims(Some(LargeModel), override) == 3072
  {
  }

  /** The small model yields 1536 dimensions whatever the override is. */
  lemma SmallModelDims(override: Option<nat>)
    ensures Dims(Some(SmallModel), override) == 1536
  {
  }

  /** Any other model yields the override when it is set, else 1536. */
  lemma OtherModelDims(model: string, override: Option<nat>)
    requires model != LargeModel && model != SmallModel
    ensures Dims(Some(model), override) == override.GetOr(1536)
    ensures override.Some? ==> Dims(Some(model), override) == override.value
  {
  }

  /** With EMBEDDING_MODEL unset the model is the small one and the dimensionality 1536,
      even when an override is set. */
  lemma UnsetModel(e: Environment)
    requires e.embeddingModel.None?
    ensures Load(e).embeddingModel == SmallModel && Load(e).embeddingDimensions == 1536
  {
  }
}
