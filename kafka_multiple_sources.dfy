/**
 * `kafka_multiple_sources_dataflow.py`: the Azure indexer for the merged
 * EDGAR and news streams. Its `JSONLReader.run` builds the same document as
 * the custom pipeline but returns it unconverted; `process_event` converts
 * it with a `document_to_dict` that keeps the meta nested.
 */
module KafkaMultipleSources {
  import opened Text
  import opened Values
  import Decoder
  import opened Reader

  /** `safe_deserialize` here is the list-accepting variant. */
  function SafeDeserialize(parsed: Result<Value>): (r: Option<Value>)
    ensures Decoder.Accepted(Decoder.WrappedEvent(parsed), r)
  {
    Decoder.ListAccepting(parsed)
  }

  /** The metadata fields the module-level reader is configured with. */
  const MetadataFields: seq<string> := ["title", "form_type", "url"]

  /** `document_to_dict`: exactly id, content, the meta as it is (not flattened) and `vector`. */
  function DocumentToDict(doc: Document): (r: Fields)
    ensures DistinctKeys(r) && Keys(r) == {"id", "content", "meta", "vector"}
    ensures Get(r, "content") == Some(Str(doc.content))
    ensures Get(r, "meta") == Some(Dict(doc.meta))
    ensures Get(r, "vector") == Some(if doc.embedding.Some? then List(doc.embedding.value) else Null)
  {
    var r := [("id", if doc.id.Some? then Str(doc.id.value) else Null), ("content", Str(doc.content)),
              ("meta", Dict(doc.meta)), ("vector", if doc.embedding.Some? then List(doc.embedding.value) else Null)];
    KeysOfFour(r[0], r[1], r[2], r[3]);
    r
  }

  /**
   * `process_event`: a falsy event gives None; any other event is run
   * through the reader and converted, and whatever `run` raises propagates.
   */
  function ProcessEvent(event: Value, pipeline: Pipeline): (r: Result<Option<Fields>>)
    ensures !Truthy(event) ==> r == Ok(None)
    ensures Truthy(event) ==> (r.Ok? <==> EmbedDocument(event, MetadataFields, pipeline).Ok?)
    ensures Truthy(event) && r.Ok? ==>
            r.value == Some(DocumentToDict(EmbedDocument(event, MetadataFields, pipeline).value))
  {
    if !Truthy(event) then Ok(None)
    else match EmbedDocument(event, MetadataFields, pipeline)
      case Err(e) => Err(e)
      case Ok(document) => Ok(Some(DocumentToDict(document)))
  }

  /**
   * The list-accepting decoder can hand on a bare string, which has no
   * `get`: `process_event` then raises AttributeError rather than answering
   * None.
   */
  lemma WrappedStringRaises(pipeline: Pipeline)
    ensures var e := SafeDeserialize(Ok(List([Null, Str("my url")])));
            e.Some? && ProcessEvent(e.value, pipeline) == Err(AttributeError)
  {
    Decoder.WrappedStringKept();
  }

  /** Every dict event the decoder keeps reaches the pipeline with its `url` value, rewritten. */
  lemma {:induction false} DecodedEventReachesPipeline(parsed: Result<Value>)
    requires SafeDeserialize(parsed).Some? && SafeDeserialize(parsed).value.Dict?
    ensures var e := SafeDeserialize(parsed).value;
            Truthy(e) && HasKey(e.fields, "url") && UrlOf(e) == Get(e.fields, "url").value
  {
    var e := SafeDeserialize(parsed).value;
    assert e.fields != [] by {
      assert "url" in Keys(e.fields);
    }
  }
}
