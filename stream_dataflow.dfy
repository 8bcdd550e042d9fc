/**
 * `aimakerspace-2024/stream-version/dataflow.py`: the streaming news
 * indexer. Its `JSONLReader.run` fetches the event's URL through a Haystack
 * pipeline and builds a document from the first output; an
 * `embedding_flag` decides whether the embedder's meta is merged and
 * whether `document_to_dict` has an `embedding` key.
 */
module StreamDataflow {
  import opened Text
  import opened Values
  import Decoder
  import opened Reader

  /** `safe_deserialize` here is the list-accepting variant. */
  function SafeDeserialize(parsed: Result<Value>): (r: Option<Value>)
    ensures Decoder.Accepted(Decoder.WrappedEvent(parsed), r)
  {
    Decoder.ListAccepting(parsed)
  }

  /** The configuration of the module-level reader. */
  const MetadataFields: seq<string> := ["symbols", "headline", "url"]
  const EmbeddingFlag: bool := false

  /**
   * `JSONLReader.run`. The metadata starts as the selected fields; with the
   * flag it is updated with the embedder's meta, and in every case then with
   * the first document's own meta. The document built under the flag, the
   * only one carrying an embedding, is replaced by one built without it.
   */
  function Run(event: Value, fields: seq<string>, embeddingFlag: bool, pipeline: Pipeline): (r: Result<Document>)
    ensures !event.Dict? ==> r == Err(AttributeError)
    ensures r.Ok? ==> r.value.embedding.None?
    ensures r.Ok? ==>
      && event.Dict? && RewriteUrl(UrlOf(event)).Ok? && pipeline(RewriteUrl(UrlOf(event)).value).Ok?
      && var out := pipeline(RewriteUrl(UrlOf(event)).value).value;
      && out.documents != []
      && r.value.id == out.documents[0].id
      && r.value.content == out.documents[0].content
      && r.value.meta == Update(Merged(event.fields, fields, embeddingFlag, out.meta), out.documents[0].meta)
    ensures (event.Dict? && RewriteUrl(UrlOf(event)).Ok? && pipeline(RewriteUrl(UrlOf(event)).value).Ok?
             && pipeline(RewriteUrl(UrlOf(event)).value).value.documents == []) ==> r == Err(IndexError)
  {
    if !event.Dict? then Err(AttributeError)
    else match RewriteUrl(UrlOf(event))
      case Err(e) => Err(e)
      case Ok(url) =>
        var metadata := SelectMetadata(event.fields, fields);
        match pipeline(url)
        case Err(e) => Err(e)
        case Ok(out) =>
          if out.documents == [] then Err(IndexError)
          else
            var first := out.documents[0];
            var metadata := if embeddingFlag then Update(metadata, out.meta) else metadata;
            Ok(Document(first.id, first.content, Update(metadata, first.meta), None))
  }

  /** The metadata before the document's own meta is merged in. */
  function Merged(event: Fields, fields: seq<string>, embeddingFlag: bool, embedderMeta: Fields): (r: Fields)
    ensures Keys(r) == (set f | f in fields && HasKey(event, f)) + (if embeddingFlag then Keys(embedderMeta) else {})
  {
    var metadata := SelectMetadata(event, fields);
    if embeddingFlag then Update(metadata, embedderMeta) else metadata
  }

  /**
   * Precedence in the returned metadata: the first document's meta wins,
   * then (with the flag) the embedder's meta, then the selected event fields.
   */
  lemma {:induction false} MetadataPrecedence(event: Value, fields: seq<string>, embeddingFlag: bool, pipeline: Pipeline, k: string)
    requires Run(event, fields, embeddingFlag, pipeline).Ok?
    ensures var out, meta := pipeline(RewriteUrl(UrlOf(event)).value).value, Run(event, fields, embeddingFlag, pipeline).value.meta;
            Get(meta, k) ==
              if k in Keys(out.documents[0].meta) then LastGet(out.documents[0].meta, k)
              else if embeddingFlag && k in Keys(out.meta) then LastGet(out.meta, k)
              else if k in fields then Get(event.fields, k)
              else None
  {
    var sel := SelectMetadata(event.fields, fields);
    assert k in fields && HasKey(event.fields, k) ==> k in Keys(sel);
  }

  /** `document_to_dict`: id, content and meta, plus `embedding` exactly when the flag is set. */
  function DocumentToDict(doc: Document, embeddingFlag: bool): (r: Fields)
    ensures DistinctKeys(r)
    ensures Keys(r) == {"id", "content", "meta"} + (if embeddingFlag then {"embedding"} else {})
    ensures Get(r, "meta") == Some(Dict(doc.meta))
    ensures embeddingFlag ==> Get(r, "embedding") == Some(if doc.embedding.Some? then List(doc.embedding.value) else Null)
  {
    var id := if doc.id.Some? then Str(doc.id.value) else Null;
    if embeddingFlag then
      var embedding := if doc.embedding.Some? then List(doc.embedding.value) else Null;
      DictOfFour(id, Str(doc.content), Dict(doc.meta), embedding);
      [("id", id), ("content", Str(doc.content)), ("meta", Dict(doc.meta)), ("embedding", embedding)]
    else
      DictOfThree(id, Str(doc.content), Dict(doc.meta));
      [("id", id), ("content", Str(doc.content)), ("meta", Dict(doc.meta))]
  }

  /** The dict literal with `id`, `content` and `meta`. */
  lemma DictOfThree(id: Value, content: Value, meta: Value)
    ensures var r := [("id", id), ("content", content), ("meta", meta)];
      DistinctKeys(r) && Keys(r) == {"id", "content", "meta"} && Get(r, "meta") == Some(meta)
  {
    var r := [("id", id), ("content", content), ("meta", meta)];
    assert |"id"| == 2 && |"content"| == 7 && |"meta"| == 4;
    KeysOfTwo(r[0], r[1]);
    KeysAppend(r[..2], [r[2]]);
    assert r == r[..2] + [r[2]] && Keys([r[2]]) == {"meta"};
  }

  /** The dict literal with `id`, `content`, `meta` and `embedding`. */
  lemma DictOfFour(id: Value, content: Value, meta: Value, embedding: Value)
    ensures var r := [("id", id), ("content", content), ("meta", meta), ("embedding", embedding)];
      && DistinctKeys(r) && Keys(r) == {"id", "content", "meta", "embedding"}
      && Get(r, "meta") == Some(meta) && Get(r, "embedding") == Some(embedding)
  {
    var r := [("id", id), ("content", content), ("meta", meta), ("embedding", embedding)];
    assert |"id"| == 2 && |"content"| == 7 && |"meta"| == 4 && |"embedding"| == 9;
    KeysOfFour(r[0], r[1], r[2], r[3]);
  }

  /**
   * Even with the flag set, what `process_event` emits never holds an
   * embedding: the `embedding` key is there, with value None.
   */
  lemma {:induction false} EmbeddingAlwaysNone(event: Value, fields: seq<string>, pipeline: Pipeline)
    requires Run(event, fields, true, pipeline).Ok?
    ensures Get(DocumentToDict(Run(event, fields, true, pipeline).value, true), "embedding") == Some(Null)
  {
  }

  /** Without the flag, the dict of a document has no `embedding` key. */
  lemma WithoutEmbedding(doc: Document)
    ensures !HasKey(DocumentToDict(doc, false), "embedding")
  {
    assert |"embedding"| == 9 && |"id"| == 2 && |"content"| == 7 && |"meta"| == 4;
  }

  /** `process_event` with the module-level reader: None for a falsy event, else the converted document. */
  function ProcessEvent(event: Value, pipeline: Pipeline): (r: Result<Option<Fields>>)
    ensures !Truthy(event) ==> r == Ok(None)
    ensures Truthy(event) ==> (r.Ok? <==> Run(event, MetadataFields, EmbeddingFlag, pipeline).Ok?)
    ensures Truthy(event) && r.Ok? ==> r.value.Some? && !HasKey(r.value.value, "embedding")
  {
    if !Truthy(event) then Ok(None)
    else match Run(event, MetadataFields, EmbeddingFlag, pipeline)
      case Err(e) => Err(e)
      case Ok(document) =>
        WithoutEmbedding(document);
        Ok(Some(DocumentToDict(document, EmbeddingFlag)))
  }
}
