/**
 * `pydata/dataflow.py`: Benzinga news lines are decoded by the
 * list-accepting `safe_deserialize`, and each truthy event goes, as the
 * single source, through `BenzingaNews.run` and then the rest of the
 * embedder's Haystack pipeline (cleaner, splitter, writer).
 */
module PydataDataflow {
  import opened Text
  import opened Values
  import Decoder
  import opened NewsSources

  /** `safe_deserialize` here is the list-accepting variant. */
  function SafeDeserialize(parsed: Result<Value>): (r: Option<Value>)
    ensures Decoder.Accepted(Decoder.WrappedEvent(parsed), r)
  {
    Decoder.ListAccepting(parsed)
  }

  /** The pipeline components after `get_news`, as a function of the documents it outputs. */
  type Downstream = seq<NewsDocument> -> Result<Value>

  /**
   * `process_event`: a falsy event gives None; any other event is the one
   * source of `BenzingaNews.run`, whose documents go downstream; whatever
   * raises on the way propagates.
   */
  function ProcessEvent(event: Value, getText: HtmlText, downstream: Downstream): (r: Result<Option<Value>>)
    ensures !Truthy(event) ==> r == Ok(None)
    ensures Truthy(event) && !(event.Dict? && Get(event.fields, "content").Some?) ==>
              r == Err(if event.Dict? then KeyError
                       else if event.List? then ListWalk(event.items, 0, CleanText(getText)).1
                       else TypeError)
    ensures Truthy(event) && event.Dict? && Get(event.fields, "content").Some? ==>
              var documents := NewsDocuments([event], CleanText(getText));
              && documents.Ok? && |documents.value| <= 1
              && (r.Ok? <==> downstream(documents.value).Ok?)
              && (r.Ok? ==> r.value == Some(downstream(documents.value).value))
  {
    NewsDocumentsSingle(event, CleanText(getText));
    SourceDocumentCases(event, CleanText(getText));
    if !Truthy(event) then Ok(None)
    else match NewsDocuments([event], CleanText(getText))
      case Err(e) => Err(e)
      case Ok(documents) =>
        match downstream(documents)
        case Err(e) => Err(e)
        case Ok(v) => Ok(Some(v))
  }

  /**
   * What reaches the rest of the pipeline for a dict event with `content`:
   * nothing when the cleaned content is empty, otherwise one document
   * whose meta is the whole cleaned event.
   */
  lemma DownstreamInput(event: Value, getText: HtmlText)
    requires event.Dict? && Get(event.fields, "content").Some?
    ensures var content := CleanValue(Get(event.fields, "content").value, CleanText(getText));
            NewsDocuments([event], CleanText(getText)) ==
              if content == Str("") then Ok([])
              else Ok([NewsDocument(content, CleanedFields(event.fields, CleanText(getText)))])
  {
    NewsDocumentsSingle(event, CleanText(getText));
    SourceDocumentCases(event, CleanText(getText));
  }

  /**
   * The list-accepting decoder can hand on a bare string; iterating it
   * and indexing it by its own characters raises TypeError, which
   * `process_event` does not catch.
   */
  lemma WrappedStringRaises(getText: HtmlText, downstream: Downstream)
    ensures var e := SafeDeserialize(Ok(List([Null, Str("my url")])));
            e.Some? && ProcessEvent(e.value, getText, downstream) == Err(TypeError)
  {
    Decoder.WrappedStringKept();
  }

  /**
   * The decoder keeps the wrapped list `[5, "url"]`; the cleaning loop
   * then reads 5 and indexes the two-element list with it, which raises
   * IndexError.
   */
  lemma WrappedListRaises(getText: HtmlText, downstream: Downstream)
    ensures var e := SafeDeserialize(Ok(List([Null, List([Int(5), Str("url")])])));
            e.Some? && ProcessEvent(e.value, getText, downstream) == Err(IndexError)
  {
    Decoder.WrappedListKept();
    ListSourceOutOfRange(CleanText(getText));
  }
}
