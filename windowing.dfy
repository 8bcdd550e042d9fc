/**
 * What the two windowing dataflows share after `parse_time`: the
 * `tuple_map` step that keys each event by `str(id)` and keeps a fixed set
 * of its fields for the window.
 */
module Windowing {
  import opened Values
  import Timestamps

  /** `{k: data[k] for k in keys}`, written out as a dict literal: KeyError at the first missing key. */
  function Project(data: Fields, keys: seq<string>): (r: Result<Fields>)
    ensures r.Ok? <==> forall k :: k in keys ==> HasKey(data, k)
    ensures r.Err? ==> r.error == KeyError
    ensures r.Ok? ==> Keys(r.value) == (set k | k in keys)
    ensures r.Ok? ==> forall k :: k in keys ==> Get(r.value, k) == Get(data, k)
    ensures r.Ok? && Timestamps.Distinct(keys) ==> DistinctKeys(r.value)
  {
    if keys == [] then Ok([])
    else match Get(data, keys[0])
      case None =>
        assert keys[0] in keys;
        Err(KeyError)
      case Some(v) =>
        match Project(data, keys[1..])
        case Err(e) => Err(e)
        case Ok(rest) =>
          assert forall k :: k in keys <==> k == keys[0] || k in keys[1..];
          assert Timestamps.Distinct(keys) ==> keys[0] !in keys[1..];
          KeysAppend([(keys[0], v)], rest);
          assert Keys([(keys[0], v)]) == {keys[0]};
          Ok([(keys[0], v)] + rest)
  }

  /**
   * The `tuple_map` lambda: `(str(data["id"]), {k: data[k] ...})`. The id is
   * read first; any missing key raises KeyError.
   */
  function KeyedProjection(data: Fields, keys: seq<string>): (r: Result<(string, Fields)>)
    ensures r.Ok? <==> HasKey(data, "id") && forall k :: k in keys ==> HasKey(data, k)
    ensures r.Err? ==> r.error == KeyError
    ensures r.Ok? ==> r.value.0 == PyStr(Get(data, "id").value)
    ensures r.Ok? ==> Keys(r.value.1) == (set k | k in keys) && forall k :: k in keys ==> Get(r.value.1, k) == Get(data, k)
  {
    match Get(data, "id")
    case None => Err(KeyError)
    case Some(id) =>
      match Project(data, keys)
      case Err(e) => Err(e)
      case Ok(value) => Ok((PyStr(id), value))
  }

  /**
   * An event that came through `parse_time` and `tuple_map` with the
   * timestamps among its kept fields carries a valid datetime under each of
   * them: the event clock reads `updated_at` from a real datetime.
   */
  lemma KeyedTimesValid(event: Fields, keys: seq<string>, key: string)
    requires Timestamps.ConvertAll(event, Timestamps.TimeKeys, Timestamps.Convert).Ok?
    requires KeyedProjection(Timestamps.ConvertAll(event, Timestamps.TimeKeys, Timestamps.Convert).value, keys).Ok?
    requires key in keys && key in Timestamps.TimeKeys
    ensures var value := KeyedProjection(Timestamps.ConvertAll(event, Timestamps.TimeKeys, Timestamps.Convert).value, keys).value.1;
            Get(value, key).Some? && Timestamps.ValidTime(Get(value, key).value)
  {
    Timestamps.ParseTimeValid(event, key);
  }
}
