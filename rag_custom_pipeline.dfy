/**
 * `rag_custom_pipeline.py`: the Azure indexer that reads EDGAR and news
 * events, runs them through the Unstructured/Azure OpenAI pipeline and
 * uploads each document with its metadata flattened.
 *
 * `json.dumps` and the upload to Azure AI Search are function parameters.
 */
module RagCustomPipeline {
  import opened Text
  import opened Values
  import Decoder
  import Flatten
  import opened Reader

  /** `safe_deserialize` here is the list-accepting variant. */
  function SafeDeserialize(parsed: Result<Value>): (r: Option<Value>)
    ensures Decoder.Accepted(Decoder.WrappedEvent(parsed), r)
  {
    Decoder.ListAccepting(parsed)
  }

  /** A document id as a dict value. */
  function IdValue(id: Option<string>): Value {
    match id
    case None => Null
    case Some(s) => Str(s)
  }

  /** An embedding as a dict value: the list of floats, or None. */
  function VectorValue(embedding: Option<seq<Value>>): Value {
    match embedding
    case None => Null
    case Some(e) => List(e)
  }

  /**
   * `document_to_dict`: id, content, the flattened meta serialised by
   * `json.dumps`, and the embedding as `vector`.
   */
  function DocumentToDict(doc: Document, dumps: Fields -> string): (r: Fields)
    ensures DistinctKeys(r) && Keys(r) == {"id", "content", "meta", "vector"}
    ensures Get(r, "content") == Some(Str(doc.content))
    ensures Get(r, "meta") == Some(Str(dumps(Flatten.FlattenMeta(doc.meta))))
    ensures Get(r, "vector") == Some(VectorValue(doc.embedding))
  {
    var r := [("id", IdValue(doc.id)), ("content", Str(doc.content)),
              ("meta", Str(dumps(Flatten.FlattenMeta(doc.meta)))), ("vector", VectorValue(doc.embedding))];
    KeysOfFour(r[0], r[1], r[2], r[3]);
    r
  }

  /**
   * `JSONLReader.run`: the document built from the event, converted by
   * `document_to_dict`, together with what the upload returned for it.
   */
  function Run(event: Value, fields: seq<string>, pipeline: Pipeline,
               dumps: Fields -> string, upload: Fields -> Value): (r: Result<Fields>)
    ensures r.Err? <==> EmbedDocument(event, fields, pipeline).Err?
    ensures r.Ok? ==>
      var dict := DocumentToDict(EmbedDocument(event, fields, pipeline).value, dumps);
      && Keys(r.value) == {"document", "result"}
      && Get(r.value, "document") == Some(Dict(dict))
      && Get(r.value, "result") == Some(upload(dict))
  {
    match EmbedDocument(event, fields, pipeline)
    case Err(e) => Err(e)
    case Ok(document) =>
      var dictionary := DocumentToDict(document, dumps);
      var results := [("document", Dict(dictionary)), ("result", upload(dictionary))];
      KeysOfTwo(results[0], results[1]);
      Ok(results)
  }

  /**
   * What reaches the serialiser is always a flat dict: distinct keys and
   * only str, int, float or bool values, whatever the event held.
   */
  lemma {:induction false} UploadedMetaFlat(event: Value, fields: seq<string>, pipeline: Pipeline)
    requires EmbedDocument(event, fields, pipeline).Ok?
    ensures var m := Flatten.FlattenMeta(EmbedDocument(event, fields, pipeline).value.meta);
            Flatten.AllScalar(m) && DistinctKeys(m)
  {
    Flatten.FlattenMetaScalar(EmbedDocument(event, fields, pipeline).value.meta);
  }
}
