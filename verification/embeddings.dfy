/** `EmbeddingModel`: wraps a transformer and turns whatever it returns for a text into either
    a non-empty vector or the empty list. The transformer is a parameter. */
module Embeddings {
  import opened Wrappers

  /** What the transformer's `get_embedding` can hand back: `None`, a list of numbers, or any
      other Python value. */
  datatype RawEmbedding = RawNone | RawList(values: seq<real>) | RawOther

  /** The transformer's `get_embedding` raised. */
  datatype ModelError = ModelRaised

  datatype Transformer = Transformer(embed: string -> Result<RawEmbedding, ModelError>)

  /** The argument `EmbeddingModel.__init__` receives: a `TransformerModel` or something else. */
  datatype Candidate = IsTransformer(transformer: Transformer) | NotTransformer

  /** `self.model`, which is `None` after a failed initialisation. */
  datatype EmbeddingModel = EmbeddingModel(model: Option<Transformer>)

  /** `EmbeddingModel.__init__`: keep the model only when it has the right type. */
  function InitEmbeddingModel(candidate: Candidate): (m: EmbeddingModel)
    ensures m.model.Some? <==> candidate.IsTransformer?
    ensures candidate.IsTransformer? ==> m.model == Some(candidate.transformer)
  {
    match candidate
    case IsTransformer(t) => EmbeddingModel(Some(t))
    case NotTransformer => EmbeddingModel(None)
  }

  /** The check on the transformer's answer: a non-empty list passes through unchanged, and
      anything else (an exception, `None`, a non-list, an empty list) becomes `[]`. */
  function Validate(raw: Result<RawEmbedding, ModelError>): (r: seq<real>)
    ensures |r| > 0 <==> raw.Success? && raw.value.RawList? && |raw.value.values| > 0
    ensures |r| > 0 ==> r == raw.value.values
  {
    if raw.Success? && raw.value.RawList? && |raw.value.values| > 0 then raw.value.values else []
  }

  /** A vector that passed the check passes it again unchanged. */
  lemma ValidateIsStable(raw: Result<RawEmbedding, ModelError>)
    ensures |Validate(raw)| > 0 ==> Validate(Success(RawList(Validate(raw)))) == Validate(raw)
  {
  }

  /** `get_embedding`: `[]` without a model, otherwise the checked answer of the transformer. */
  function GetEmbedding(m: EmbeddingModel, text: string): (r: seq<real>)
    ensures m.model.None? ==> r == []
    ensures m.model.Some? ==> r == Validate(m.model.value.embed(text))
  {
    match m.model
    case None => []
    case Some(t) => Validate(t.embed(text))
  }

  /** A non-empty embedding comes only from a correctly initialised model whose transformer
      answered with exactly that non-empty list. */
  lemma NonEmptyEmbeddingIsGenuine(m: EmbeddingModel, text: string)
    ensures |GetEmbedding(m, text)| > 0 <==>
      m.model.Some? && m.model.value.embed(text).Success? &&
      m.model.value.embed(text).value.RawList? && |m.model.value.embed(text).value.values| > 0
    ensures |GetEmbedding(m, text)| > 0 ==>
      m.model.value.embed(text) == Success(RawList(GetEmbedding(m, text)))
  {
  }

  /** A failed initialisation makes every embedding empty. */
  lemma WrongTypeGivesNoEmbeddings(text: string)
    ensures GetEmbedding(InitEmbeddingModel(NotTransformer), text) == []
  {
  }
}
