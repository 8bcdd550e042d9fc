/**
 * `pydata/benzinga.py`: the `BezingaNews` Haystack component. Each news
 * event gives one document whose content is the event's `content`, or its
 * `headline` when the content is shorter than 20 characters, with HTML
 * entities decoded, tags removed, the ends trimmed and newlines turned
 * into spaces.
 *
 * `html.unescape` is a function parameter.
 */
module Benzinga {
  import opened Text
  import opened Values
  import opened Reader

  /** `html.unescape` */
  type Unescape = string -> string

  /** Content shorter than this falls back to the headline. */
  const MinContentLength: nat := 20

  /** `re.sub(r'<.*?>', '', html.unescape(text)).strip().replace("\n", " ")` */
  function CleanNews(text: string, unescape: Unescape): string {
    NewlinesToSpaces(Strip(RemoveTags(unescape(text))))
  }

  /** A cleaned text has no newline and no whitespace at either end, whatever the markup was. */
  lemma CleanNewsShape(text: string, unescape: Unescape)
    ensures var r := CleanNews(text, unescape);
            && '\n' !in r
            && (r == [] || (!IsSpace(r[0]) && !IsSpace(r[|r| - 1])))
  {
    StrippedNewlinesShape(Strip(RemoveTags(unescape(text))));
  }

  /** Replacing newlines in a stripped text leaves no newline and no whitespace at either end. */
  lemma StrippedNewlinesShape(t: string)
    requires t == [] || (!IsSpace(t[0]) && !IsSpace(t[|t| - 1]))
    ensures var r := NewlinesToSpaces(t);
            && '\n' !in r
            && (r == [] || (!IsSpace(r[0]) && !IsSpace(r[|r| - 1])))
  {
    assert IsSpace('\n');
  }

  /**
   * The text an event is cleaned from: `news_event.get("content")`, or the
   * `headline` when `len` of it is below 20. A value that is not a dict
   * has no `get` (AttributeError); `len` of a missing content (None) or of
   * a number raises TypeError; a missing headline raises KeyError; a text
   * that is not a str fails in `unescape` or `re.sub` with TypeError.
   */
  function EventText(event: Value): (r: Result<string>)
    ensures !event.Dict? ==> r == Err(AttributeError)
    ensures event.Dict? && Get(event.fields, "content").None? ==> r == Err(TypeError)
    ensures r.Ok? ==> event.Dict? && Len(ContentOf(event.fields)).Ok?
    ensures r.Ok? && Len(ContentOf(event.fields)).value < MinContentLength ==>
              Get(event.fields, "headline") == Some(Str(r.value))
    ensures r.Ok? && Len(ContentOf(event.fields)).value >= MinContentLength ==>
              ContentOf(event.fields) == Str(r.value)
    ensures event.Dict? && ContentOf(event.fields).Str? && |ContentOf(event.fields).s| >= MinContentLength ==>
              r == Ok(ContentOf(event.fields).s)
  {
    if !event.Dict? then Err(AttributeError)
    else
      var content := ContentOf(event.fields);
      match Len(content)
      case Err(e) => Err(e)
      case Ok(n) =>
        var text := if n < MinContentLength then Get(event.fields, "headline") else Some(content);
        match text
        case None => Err(KeyError)
        case Some(t) => if t.Str? then Ok(t.s) else Err(TypeError)
  }

  /** `news_event.get("content")`: the value, or None when the key is missing. */
  function ContentOf(fs: Fields): (r: Value)
    ensures Get(fs, "content").Some? ==> r == Get(fs, "content").value
    ensures Get(fs, "content").None? ==> r == Null
  {
    match Get(fs, "content")
    case None => Null
    case Some(v) => v
  }

  /** The document one news event gives: its cleaned text as content, nothing else set. */
  function EventDocument(event: Value, unescape: Unescape): Result<Document> {
    match EventText(event)
    case Err(e) => Err(e)
    case Ok(text) => Ok(Document(None, CleanNews(text, unescape), [], None))
  }

  /**
   * `BezingaNews.run`: one document per event, in event order, returned as
   * a plain list; the first event that raises ends the run with its error.
   */
  method Run(sources: seq<Value>, unescape: Unescape) returns (r: Result<seq<Document>>)
    ensures r.Ok? <==> forall i :: 0 <= i < |sources| ==> EventDocument(sources[i], unescape).Ok?
    ensures r.Ok? ==> (|r.value| == |sources| &&
              forall i :: 0 <= i < |sources| ==> Ok(r.value[i]) == EventDocument(sources[i], unescape))
    ensures r.Err? ==> exists i :: (0 <= i < |sources| && EventDocument(sources[i], unescape) == Err(r.error) &&
              forall j :: 0 <= j < i ==> EventDocument(sources[j], unescape).Ok?)
  {
    var documents: seq<Document> := [];
    for i := 0 to |sources|
      invariant |documents| == i
      invariant forall j :: 0 <= j < i ==> Ok(documents[j]) == EventDocument(sources[j], unescape)
    {
      match EventDocument(sources[i], unescape)
      case Err(e) =>
        assert EventDocument(sources[i], unescape) == Err(e);
        assert forall j :: 0 <= j < i ==> EventDocument(sources[j], unescape).Ok?;
        return Err(e);
      case Ok(document) =>
        documents := documents + [document];
    }
    r := Ok(documents);
  }

  /** A short content is replaced by the headline, which is then the text that gets cleaned. */
  lemma ShortContentUsesHeadline(event: Fields, content: string, headline: string)
    requires Get(event, "content") == Some(Str(content)) && |content| < MinContentLength
    requires Get(event, "headline") == Some(Str(headline))
    ensures EventText(Dict(event)) == Ok(headline)
  {
  }

  /** An event without `content` raises, because `len(None)` does. */
  lemma MissingContentRaises(event: Fields, unescape: Unescape)
    requires Get(event, "content").None?
    ensures EventDocument(Dict(event), unescape) == Err(TypeError)
  {
  }

  /**
   * The document of an event exists exactly when its text does; its
   * content is the cleaned text, with no newline and no whitespace at
   * either end, and it has no id, meta or embedding of its own.
   */
  lemma EventDocumentShape(event: Value, unescape: Unescape)
    ensures EventDocument(event, unescape).Ok? <==> EventText(event).Ok?
    ensures EventDocument(event, unescape).Err? ==> EventDocument(event, unescape).error == EventText(event).error
    ensures EventDocument(event, unescape).Ok? ==>
              var d := EventDocument(event, unescape).value;
              && d.content == CleanNews(EventText(event).value, unescape)
              && '\n' !in d.content
              && (d.content == [] || (!IsSpace(d.content[0]) && !IsSpace(d.content[|d.content| - 1])))
              && d.id.None? && d.meta == [] && d.embedding.None?
  {
    if EventText(event).Ok? {
      CleanNewsShape(EventText(event).value, unescape);
    }
  }

  /** A tag is removed with its brackets. */
  lemma RemoveTagsExample()
    ensures RemoveTags("<b>x") == "x"
  {
    assert TagEnd("<b>x", 1) == Some(2);
    assert "<b>x"[3..] == "x";
  }
}
