/**
 * `pydata/windowing_types_indexing.py`: Benzinga news events are decoded
 * by the object-only `safe_deserialize`, their timestamps parsed, keyed by
 * id and collected in sliding windows on `updated_at`; `process_event`
 * then embeds one event of each window through `BenzingaNews.run` and the
 * rest of the Haystack pipeline.
 */
module WindowingTypesIndexing {
  import opened Text
  import opened Values
  import Decoder
  import Timestamps
  import Windowing
  import opened NewsSources

  /** `safe_deserialize` here is the object-only variant. */
  function SafeDeserialize(parsed: Result<Value>): (r: Option<Value>)
    ensures Decoder.Accepted(Decoder.ObjectEvent(parsed), r)
    ensures r.Some? ==> r.value.Dict?
  {
    Decoder.ObjectOnly(parsed)
  }

  /** `parse_time` here is the shared loop over `created_at` and `updated_at`. */
  method ParseTime(parsedData: Fields) returns (r: Result<Fields>)
    ensures r == Timestamps.ConvertAll(parsedData, Timestamps.TimeKeys, Timestamps.Convert)
  {
    r := Timestamps.ParseTime(parsedData);
  }

  /** The fields `tuple_map` keeps in this file. */
  const TupleKeys: seq<string> := ["created_at", "updated_at", "headline", "content"]

  /** The `tuple_map` lambda: the event keyed by `str(id)`, holding exactly the four fields. */
  function TupleMap(readingData: Fields): (r: Result<(string, Fields)>)
    ensures r.Ok? <==> HasKey(readingData, "id") && HasKey(readingData, "created_at")
                       && HasKey(readingData, "updated_at") && HasKey(readingData, "headline")
                       && HasKey(readingData, "content")
    ensures r.Err? ==> r.error == KeyError
    ensures r.Ok? ==> r.value.0 == PyStr(Get(readingData, "id").value)
    ensures r.Ok? ==> Keys(r.value.1) == {"created_at", "updated_at", "headline", "content"} && DistinctKeys(r.value.1)
    ensures r.Ok? ==> forall k :: k in TupleKeys ==> Get(r.value.1, k) == Get(readingData, k)
  {
    assert Timestamps.Distinct(TupleKeys);
    assert (set k | k in TupleKeys) == {"created_at", "updated_at", "headline", "content"};
    Windowing.KeyedProjection(readingData, TupleKeys)
  }

  /** The pipeline components after `get_news`, as a function of the documents it outputs. */
  type Downstream = seq<NewsDocument> -> Result<Value>

  /** The items of the first list among `items`, if there is one. */
  function FirstList(items: seq<Value>): (r: Option<seq<Value>>)
    ensures r.None? <==> forall j :: 0 <= j < |items| ==> !items[j].List?
  {
    if items == [] then None
    else if items[0].List? then Some(items[0].items)
    else
      assert forall j :: 1 <= j < |items| ==> items[j] == items[1..][j - 1];
      FirstList(items[1..])
  }

  /** The list `FirstList` finds is in `items`, and no list comes before it. */
  lemma {:induction false} FirstListIsFirst(items: seq<Value>)
    requires FirstList(items).Some?
    ensures exists j :: 0 <= j < |items| && items[j] == List(FirstList(items).value) &&
                        forall k :: 0 <= k < j ==> !items[k].List?
  {
    if !items[0].List? {
      FirstListIsFirst(items[1..]);
      var j :| 0 <= j < |items[1..]| && items[1..][j] == List(FirstList(items[1..]).value) &&
                forall k :: 0 <= k < j ==> !items[1..][k].List?;
      assert items[j + 1] == List(FirstList(items).value);
      assert forall k :: 1 <= k < j + 1 ==> items[k] == items[1..][k - 1];
    } else {
      assert items[0] == List(FirstList(items).value);
    }
  }

  /** What embedding one event yields: the pipeline's output, or None when anything raises. */
  function EmbedOne(event: Value, clean: Cleaner, downstream: Downstream): Option<Value> {
    match NewsDocuments([event], clean)
    case Err(_) => None
    case Ok(documents) =>
      match downstream(documents)
      case Err(_) => None
      case Ok(v) => Some(v)
  }

  /**
   * What `process_event` yields for the data of a window: the first list
   * in it is the window's events, of which only the first is embedded; no
   * list, an empty list (IndexError) or any exception gives None.
   */
  function WindowOutcome(eventData: seq<Value>, clean: Cleaner, downstream: Downstream): Option<Value> {
    match FirstList(eventData)
    case None => None
    case Some(events) => if events == [] then None else EmbedOne(events[0], clean, downstream)
  }

  /**
   * `process_event`: the pair of key and window data is unpacked, the
   * window data walked until its first list, and the first event of that
   * list run through the pipeline, every exception caught.
   */
  method ProcessEvent(event: (string, seq<Value>), getText: HtmlText, downstream: Downstream) returns (r: Option<Value>)
    ensures r == WindowOutcome(event.1, CleanText(getText), downstream)
  {
    var (eventId, eventData) := event;
    for i := 0 to |eventData|
      invariant forall j :: 0 <= j < i ==> !eventData[j].List?
      invariant FirstList(eventData) == FirstList(eventData[i..])
    {
      assert eventData[i..][1..] == eventData[i + 1..];
      var singleEvent := eventData[i];
      if singleEvent.List? {
        if singleEvent.items == [] {
          return None;
        }
        var sources := new Value[1](_ => singleEvent.items[0]);
        assert sources[..] == [singleEvent.items[0]];
        var documents := Run(sources, CleanText(getText));
        match documents
        case Err(_) =>
          return None;
        case Ok(docs) =>
          match downstream(docs)
          case Err(_) =>
            return None;
          case Ok(v) =>
            return Some(v);
      }
    }
    return None;
  }

  /** The data of a window: its id, then its events. */
  lemma WindowPair(windowId: int, events: seq<Value>)
    ensures FirstList([Int(windowId), List(events)]) == Some(events)
  {
    assert [Int(windowId), List(events)][1..] == [List(events)];
    assert FirstList([List(events)]) == Some(events);
  }

  /**
   * On the `(window_id, events)` pair a window delivers, only the first
   * event counts: two windows whose first events agree give the same
   * result, and an empty window gives None.
   */
  lemma OnlyFirstEventEmbedded(windowId: int, events: seq<Value>, windowId': int, events': seq<Value>,
                               clean: Cleaner, downstream: Downstream)
    requires events != [] && events' != [] && events[0] == events'[0]
    ensures WindowOutcome([Int(windowId), List(events)], clean, downstream)
         == WindowOutcome([Int(windowId'), List(events')], clean, downstream)
    ensures WindowOutcome([Int(windowId), List([])], clean, downstream).None?
  {
    WindowPair(windowId, events);
    WindowPair(windowId', events');
    WindowPair(windowId, []);
  }

  /**
   * An event whose `content` is missing, or that is not a dict, raises
   * inside the pipeline, and a window led by it is dropped rather than
   * stopping the flow.
   */
  lemma FailingEventDropped(windowId: int, events: seq<Value>, clean: Cleaner, downstream: Downstream)
    requires events != [] && !(events[0].Dict? && Get(events[0].fields, "content").Some?)
    ensures WindowOutcome([Int(windowId), List(events)], clean, downstream).None?
  {
    WindowPair(windowId, events);
    NewsDocumentsSingle(events[0], clean);
    SourceDocumentOk(events[0], clean);
  }
}
