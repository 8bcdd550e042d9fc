/**
 * `pydata/window_dataflow.py`: news events are decoded, their timestamps
 * parsed, keyed by id and collected in tumbling windows on `updated_at`;
 * a window holding more than one event with the same id is reported.
 */
module WindowDataflow {
  import opened Text
  import opened Values
  import Decoder
  import Timestamps
  import Windowing

  /** `safe_deserialize` here is the object-only variant. */
  function SafeDeserialize(parsed: Result<Value>): (r: Option<Value>)
    ensures Decoder.Accepted(Decoder.ObjectEvent(parsed), r)
    ensures r.Some? ==> r.value.Dict?
  {
    Decoder.ObjectOnly(parsed)
  }

  /** `parse_time` here is the shared loop over `created_at` and `updated_at`. */
  method ParseTime(parsedData: Fields) returns (r: Result<Fields>)
    ensures r == Timestamps.ConvertAll(parsedData, Timestamps.TimeKeys, Timestamps.Convert)
  {
    r := Timestamps.ParseTime(parsedData);
  }

  /** The fields `tuple_map` keeps (the `content` entry is commented out in this file). */
  const TupleKeys: seq<string> := ["created_at", "updated_at", "headline"]

  /** The `tuple_map` lambda: the event keyed by `str(id)`, holding exactly the three fields. */
  function TupleMap(readingData: Fields): (r: Result<(string, Fields)>)
    ensures r.Ok? <==> HasKey(readingData, "id") && HasKey(readingData, "created_at")
                       && HasKey(readingData, "updated_at") && HasKey(readingData, "headline")
    ensures r.Err? ==> r.error == KeyError
    ensures r.Ok? ==> r.value.0 == PyStr(Get(readingData, "id").value)
    ensures r.Ok? ==> Keys(r.value.1) == {"created_at", "updated_at", "headline"} && DistinctKeys(r.value.1)
    ensures r.Ok? ==> forall k :: k in TupleKeys ==> Get(r.value.1, k) == Get(readingData, k)
  {
    assert Timestamps.Distinct(TupleKeys);
    assert (set k | k in TupleKeys) == {"created_at", "updated_at", "headline"};
    Windowing.KeyedProjection(readingData, TupleKeys)
  }

  /**
   * `find_duplicate_ids_in_window`: the window's id and its events, in
   * window order, when the window holds more than one event; the window id
   * is dropped.
   */
  function FindDuplicateIdsInWindow(window: (string, (int, seq<Fields>))): (r: Option<(string, seq<Fields>)>)
    ensures r.Some? <==> |window.1.1| > 1
    ensures r.Some? ==> r.value.0 == window.0 && r.value.1 == window.1.1
  {
    var (id, searchSession) := window;
    var (windowId, events) := searchSession;
    var searches := events;
    if |searches| > 1 then Some((id, searches)) else None
  }
}
