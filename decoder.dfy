/**
 * `safe_deserialize`: the shape check every dataflow runs on a decoded JSON
 * line before anything else. The scripts carry six copies of it in two
 * variants. The list-accepting variant takes a JSON object or a two-element
 * `[null|string, x]` wrapper around the event; the object-only variant takes
 * a JSON object only. Both then move `link` to `url` and keep the event only
 * if it has a `url`. Every exception inside is caught, so the check never
 * raises: it yields the event or `None`.
 *
 * `json.loads` is not modelled: its outcome is the input, `Err(JsonDecodeError)`
 * for malformed text.
 */
module Decoder {
  import opened Text
  import opened Values

  /**
   * The dict after `event['url'] = event.pop('link')`: `link` is gone, `url`
   * holds the old `link` value (overwriting any earlier `url`), and no other
   * key changes.
   */
  ghost predicate MovedLink(fs: Fields, out: Fields) {
    && Keys(out) == (Keys(fs) - {"link"}) + {"url"}
    && Get(out, "url") == (if HasKey(fs, "link") then Get(fs, "link") else Get(fs, "url"))
    && (forall k :: k != "link" && k != "url" ==> Get(out, k) == Get(fs, k))
  }

  /**
   * What the common tail of every copy promises about an event it was
   * offered: a kept dict is the event with `link` moved to `url`; a kept
   * value of another kind is the event itself; and the event is kept exactly
   * when it ends up with a `url` and nothing raised on the way.
   */
  ghost predicate Normalised(event: Value, r: Option<Value>) {
    && (r.Some? ==> In("url", r.value) == Ok(true))
    && (event.Dict? ==>
          && (r.Some? <==> HasKey(event.fields, "link") || HasKey(event.fields, "url"))
          && (r.Some? ==> r.value.Dict? && MovedLink(event.fields, r.value.fields)))
    && (!event.Dict? ==>
          // a str or list holding "link" raises at `.pop`; anything else raises at `in`
          && (r.Some? <==> In("link", event) == Ok(false) && In("url", event) == Ok(true))
          && (r.Some? ==> r.value == event))
  }

  /** The result of a shape check for what its first half offered: nothing kept, or the common tail applied. */
  ghost predicate Accepted(offered: Option<Value>, r: Option<Value>) {
    && (offered.None? ==> r.None?)
    && (offered.Some? ==> Normalised(offered.value, r))
  }

  /**
   * The common tail: `'link' in event` (a TypeError for a value that is not
   * a str, list or dict), the move of `link` to `url` (which raises on a str
   * or list, having no dict `pop`), then `"url" in event`.
   */
  function Normalise(event: Value): (r: Option<Value>)
    ensures Normalised(event, r)
  {
    match In("link", event)
    case Err(_) => None
    case Ok(hasLink) =>
      if hasLink then
        if event.Dict? then
          var fs := event.fields;
          Some(Dict(Set(Pop(fs, "link"), "url", Get(fs, "link").value)))
        else None
      else if In("url", event) == Ok(true) then Some(event)
      else None
  }

  /** A two-element list whose first element is null or a string: the wrapper the list-accepting copies unwrap. */
  predicate IsWrapper(v: Value) {
    v.List? && |v.items| == 2 && (v.items[0].Null? || v.items[0].Str?)
  }

  /** The event the list-accepting variant goes on to check: a dict, or the second element of a wrapper. */
  function WrappedEvent(parsed: Result<Value>): (r: Option<Value>)
    ensures r.Some? <==> parsed.Ok? && (parsed.value.Dict? || IsWrapper(parsed.value))
    ensures r.Some? && parsed.value.Dict? ==> r.value == parsed.value
    ensures r.Some? && parsed.value.List? ==> r.value == parsed.value.items[1]
  {
    match parsed
    case Err(_) => None
    case Ok(v) =>
      if v.Dict? then Some(v)
      else if IsWrapper(v) then Some(v.items[1])
      else None
  }

  /** The event the object-only variant goes on to check: the parsed value when it is a dict. */
  function ObjectEvent(parsed: Result<Value>): (r: Option<Value>)
    ensures r.Some? <==> parsed.Ok? && parsed.value.Dict?
    ensures r.Some? ==> r.value == parsed.value
  {
    if parsed.Ok? && parsed.value.Dict? then Some(parsed.value) else None
  }

  /** The list-accepting `safe_deserialize`. */
  function ListAccepting(parsed: Result<Value>): (r: Option<Value>)
    ensures Accepted(WrappedEvent(parsed), r)
    ensures parsed.Err? ==> r.None?
    ensures r.Some? ==> parsed.value.Dict? || IsWrapper(parsed.value)
  {
    match WrappedEvent(parsed)
    case None => None
    case Some(e) => Normalise(e)
  }

  /** The object-only `safe_deserialize`. */
  function ObjectOnly(parsed: Result<Value>): (r: Option<Value>)
    ensures Accepted(ObjectEvent(parsed), r)
    ensures r.Some? ==> parsed.Ok? && parsed.value.Dict? && r.value.Dict?
  {
    match ObjectEvent(parsed)
    case None => None
    case Some(e) => Normalise(e)
  }

  /**
   * The two variants agree on every input that is not a wrapper; on a
   * wrapper the object-only variant always answers `None`.
   */
  lemma {:induction false} VariantsAgreeOffWrappers(parsed: Result<Value>)
    ensures parsed.Err? || !IsWrapper(parsed.value) ==> ObjectOnly(parsed) == ListAccepting(parsed)
    ensures parsed.Ok? && IsWrapper(parsed.value) ==> ObjectOnly(parsed).None?
  {
    if parsed.Ok? && !IsWrapper(parsed.value) && !parsed.value.Dict? {
      assert WrappedEvent(parsed).None?;
    }
  }

  /** Every kept result carries a `url` key, but its value is never looked at: an empty string passes. */
  lemma EmptyUrlKept()
    ensures ListAccepting(Ok(Dict([("url", Str(""))]))) == Some(Dict([("url", Str(""))]))
    ensures ObjectOnly(Ok(Dict([("url", Str(""))]))) == Some(Dict([("url", Str(""))]))
  {
    var fs := [("url", Str(""))];
    assert Keys(fs) == {"url"};
  }

  /** A wrapped event has its `link` moved to the end as `url`. */
  lemma WrapperUnwrapped()
    ensures ListAccepting(Ok(List([Null, Dict([("link", Str("http://x")), ("id", Str("1"))])])))
         == Some(Dict([("id", Str("1")), ("url", Str("http://x"))]))
  {
    var fs := [("link", Str("http://x")), ("id", Str("1"))];
    assert fs[0] in fs;
    assert Get(fs, "link") == Some(Str("http://x"));
    assert Pop(fs, "link") == [("id", Str("1"))];
    assert Keys([("id", Str("1"))]) == {"id"};
    assert Set([("id", Str("1"))], "url", Str("http://x")) == [("id", Str("1")), ("url", Str("http://x"))];
  }

  /** A `link` overwrites an existing `url` in place: `url` keeps its position, `link` disappears. */
  lemma LinkOverwritesUrl()
    ensures ObjectOnly(Ok(Dict([("url", Str("a")), ("link", Str("b"))])))
         == Some(Dict([("url", Str("b"))]))
  {
    var fs := [("url", Str("a")), ("link", Str("b"))];
    assert fs[1] in fs;
    assert Get(fs, "link") == Some(Str("b"));
    assert Pop(fs, "link") == [("url", Str("a"))];
    assert Keys([("url", Str("a"))]) == {"url"};
    assert Replace([("url", Str("a"))], "url", Str("b")) == [("url", Str("b"))];
    assert Set([("url", Str("a"))], "url", Str("b")) == [("url", Str("b"))];
  }

  /** A wrapped string holding the text "url" is returned as that string, since `in` is a substring test. */
  lemma WrappedStringKept()
    ensures ListAccepting(Ok(List([Null, Str("my url")]))) == Some(Str("my url"))
  {
    assert StartsWith("url", "url");
    assert Contains("url", "url");
    assert Contains(" url", "url");
    assert Contains("y url", "url");
    assert Contains("my url", "url");
    MissingCharNotContained("my url", "link", 'k');
  }

  /** A wrapped list holding the string "url" is kept as that list, since `"url" in` a list is an element test. */
  lemma WrappedListKept()
    ensures ListAccepting(Ok(List([Null, List([Int(5), Str("url")])]))) == Some(List([Int(5), Str("url")]))
  {
    assert Str("url") in [Int(5), Str("url")];
  }

  /** A dict without `link` or `url` is dropped by both variants. */
  lemma MissingUrlDropped(fs: Fields)
    requires !HasKey(fs, "link") && !HasKey(fs, "url")
    ensures ListAccepting(Ok(Dict(fs))) == None
    ensures ObjectOnly(Ok(Dict(fs))) == None
  {
  }
}
