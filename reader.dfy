/**
 * What the `JSONLReader` components of the streaming indexers share: the
 * Haystack `Document` they build, the `-index.html` to `.txt` rewrite of an
 * EDGAR URL, the selection of metadata fields from an event, and the
 * document built from the first output of the embedding pipeline.
 *
 * The Haystack pipeline (fetching, partitioning, cleaning, embedding) is a
 * function parameter: given the URL it returns the embedder's documents and
 * meta, or fails.
 */
module Reader {
  import opened Text
  import opened Values

  /** A Haystack `Document`. An id of `None` is one the library derives itself. */
  datatype Document = Document(id: Option<string>, content: string, meta: Fields, embedding: Option<seq<Value>>)

  /** The `embedder` output of a pipeline run: its documents and its `meta` (empty when absent). */
  datatype EmbedderOutput = EmbedderOutput(documents: seq<Document>, meta: Fields)

  /** A pipeline run: the embedder output for a URL, or `Err(PipelineError)` when a component raises. */
  type Pipeline = Value -> Result<EmbedderOutput>

  const IndexSuffix: string := "-index.html"
  const TextSuffix: string := ".txt"

  /**
   * `if url and '-index.html' in url: url = url.replace('-index.html', '.txt')`.
   * A falsy URL (missing, None, empty) passes unchanged; `in` raises
   * TypeError on a truthy value that is not a str, list or dict; a list or
   * dict holding the text has no `replace` and raises AttributeError.
   */
  function RewriteUrl(url: Value): (r: Result<Value>)
    ensures !Truthy(url) ==> r == Ok(url)
    ensures url.Str? && Contains(url.s, IndexSuffix) ==> r == Ok(Str(ReplaceAll(url.s, IndexSuffix, TextSuffix)))
    ensures url.Str? && !Contains(url.s, IndexSuffix) ==> r == Ok(url)
    ensures r.Err? <==> Truthy(url) && (In(IndexSuffix, url).Err? || (In(IndexSuffix, url) == Ok(true) && !url.Str?))
    ensures r.Err? ==> r.error == (if In(IndexSuffix, url).Err? then TypeError else AttributeError)
  {
    if !Truthy(url) then Ok(url)
    else match In(IndexSuffix, url)
      case Err(e) => Err(e)
      case Ok(found) =>
        if !found then Ok(url)
        else if url.Str? then Ok(Str(ReplaceAll(url.s, IndexSuffix, TextSuffix)))
        else Err(AttributeError)
  }

  /** A rewritten EDGAR index link names the filing's full text instead. */
  lemma RewriteExample()
    ensures RewriteUrl(Str("a-index.html")) == Ok(Str("a.txt"))
  {
    assert StartsWith("-index.html", IndexSuffix);
    assert Contains("a-index.html", IndexSuffix) by {
      assert "a-index.html"[1..] == "-index.html";
    }
    assert ReplaceAll("", IndexSuffix, TextSuffix) == "";
    assert "-index.html"[..|IndexSuffix|] == IndexSuffix && "-index.html"[|IndexSuffix|..] == "";
    assert ReplaceAll("-index.html", IndexSuffix, TextSuffix) == ".txt";
    assert "a-index.html"[..|IndexSuffix|][0] == 'a';
    assert "a-index.html"[1..] == "-index.html";
    assert ReplaceAll("a-index.html", IndexSuffix, TextSuffix) == ['a'] + ReplaceAll("-index.html", IndexSuffix, TextSuffix);
    assert ['a'] + ".txt" == "a.txt";
  }

  /** Rewriting a rewritten string URL changes nothing more when the first pass left no `-index.html`. */
  lemma RewriteStable(s: string)
    requires !Contains(ReplaceAll(s, IndexSuffix, TextSuffix), IndexSuffix)
    ensures RewriteUrl(Str(ReplaceAll(s, IndexSuffix, TextSuffix))) == Ok(Str(ReplaceAll(s, IndexSuffix, TextSuffix)))
  {
  }

  /** The (field, value) pairs of `{field: event.get(field) for field in fields if field in event}`, in field order. */
  function SelectedItems(event: Fields, fields: seq<string>): (r: Fields)
    ensures Keys(r) == set f | f in fields && HasKey(event, f)
    ensures forall kv :: kv in r ==> Get(event, kv.0) == Some(kv.1)
  {
    if fields == [] then []
    else
      var rest := SelectedItems(event, fields[1..]);
      assert forall f :: f in fields <==> f == fields[0] || f in fields[1..];
      match Get(event, fields[0])
      case None => rest
      case Some(v) =>
        KeysAppend([(fields[0], v)], rest);
        assert Keys([(fields[0], v)]) == {fields[0]};
        [(fields[0], v)] + rest
  }

  /**
   * The metadata dict of `run`: exactly the listed fields the event has,
   * each with the event's value.
   */
  function SelectMetadata(event: Fields, fields: seq<string>): (r: Fields)
    ensures DistinctKeys(r)
    ensures Keys(r) == set f | f in fields && HasKey(event, f)
    ensures forall k :: k in Keys(r) ==> Get(r, k) == Get(event, k)
  {
    var items := SelectedItems(event, fields);
    var r := FromItems(items);
    forall k | k in Keys(r) ensures Get(r, k) == Get(event, k) {
      var v := Get(r, k).value;
      assert (k, v) in r;
    }
    r
  }

  /**
   * The document the Azure indexers (`rag_custom_pipeline.py`,
   * `kafka_multiple_sources_dataflow.py`) build from an event: the URL,
   * rewritten, goes to the pipeline; the first embedded document gives id,
   * content and embedding; the metadata is the selected fields updated with
   * the embedder's meta.
   */
  function EmbedDocument(event: Value, fields: seq<string>, pipeline: Pipeline): (r: Result<Document>)
    ensures !event.Dict? ==> r == Err(AttributeError)
    ensures r.Ok? ==> event.Dict? && RewriteUrl(UrlOf(event)).Ok? && pipeline(RewriteUrl(UrlOf(event)).value).Ok?
    ensures r.Ok? ==>
      var out := pipeline(RewriteUrl(UrlOf(event)).value).value;
      && out.documents != []
      && r.value.id == out.documents[0].id
      && r.value.content == out.documents[0].content
      && r.value.embedding == out.documents[0].embedding
      && r.value.meta == Update(SelectMetadata(event.fields, fields), out.meta)
    ensures (event.Dict? && RewriteUrl(UrlOf(event)).Ok? && pipeline(RewriteUrl(UrlOf(event)).value).Ok?
             && pipeline(RewriteUrl(UrlOf(event)).value).value.documents == []) ==> r == Err(IndexError)
  {
    if !event.Dict? then Err(AttributeError)
    else match RewriteUrl(UrlOf(event))
      case Err(e) => Err(e)
      case Ok(url) =>
        var metadata := SelectMetadata(event.fields, fields);
        match pipeline(url)
        case Err(e) => Err(e)
        case Ok(out) =>
          if out.documents == [] then Err(IndexError)
          else
            var first := out.documents[0];
            Ok(Document(first.id, first.content, Update(metadata, out.meta), first.embedding))
  }

  /** `event.get("url")` on a dict event: its `url` value, or None. */
  function UrlOf(event: Value): (r: Value)
    requires event.Dict?
    ensures HasKey(event.fields, "url") ==> Some(r) == Get(event.fields, "url")
    ensures !HasKey(event.fields, "url") ==> r == Null
  {
    match Get(event.fields, "url")
    case None => Null
    case Some(v) => v
  }

  /**
   * The document's metadata holds exactly the selected fields the event has
   * and the keys of the embedder's meta; the embedder's value wins on a
   * collision, and every other selected field keeps the event's value.
   */
  lemma {:induction false} EmbeddedMetadata(event: Value, fields: seq<string>, pipeline: Pipeline, k: string)
    requires EmbedDocument(event, fields, pipeline).Ok?
    ensures var out, meta := pipeline(RewriteUrl(UrlOf(event)).value).value, EmbedDocument(event, fields, pipeline).value.meta;
            && Keys(meta) == (set f | f in fields && HasKey(event.fields, f)) + Keys(out.meta)
            && (k in Keys(out.meta) ==> Get(meta, k) == LastGet(out.meta, k))
            && (k !in Keys(out.meta) && k in fields ==> Get(meta, k) == Get(event.fields, k))
  {
    var sel := SelectMetadata(event.fields, fields);
    assert k in fields && HasKey(event.fields, k) ==> k in Keys(sel);
  }
}
