/**
 * `BenzingaNews.run`, the Haystack component that turns decoded Benzinga
 * news events into documents. `pydata/dataflow.py` and
 * `pydata/windowing_types_indexing.py` carry identical copies: every
 * string field of each source dict is replaced in place by its cleaned
 * text, a source whose cleaned `content` is empty is skipped, and every
 * other source becomes one document whose meta is the cleaned source.
 *
 * BeautifulSoup's `get_text()` is a function parameter.
 */
module NewsSources {
  import opened Text
  import opened Values

  /** A Haystack `Document` built from a news source: its `content` (not checked to be a str) and its meta. */
  datatype NewsDocument = NewsDocument(content: Value, meta: Fields)

  /** `BeautifulSoup(text, "html.parser").get_text()` */
  type HtmlText = string -> string

  /** The component's `clean_text`, as the function the loops call. */
  type Cleaner = string -> string

  /** `clean_text`: the text of the HTML with every whitespace run made one space, then trimmed. */
  function CleanText(getText: HtmlText): Cleaner {
    text => NormaliseSpace(getText(text))
  }

  /** A field value after the `type(source[key]) == str` test: a str is cleaned, any other value kept. */
  function CleanValue(v: Value, clean: Cleaner): (r: Value)
    ensures v.Str? <==> r.Str?
    ensures !v.Str? ==> r == v
  {
    if v.Str? then Str(clean(v.s)) else v
  }

  /** A str value that `clean_text` could have produced. */
  predicate IsClean(v: Value) {
    v.Str? ==> SingleSpaced(v.s) && (v.s == [] || (!IsSpace(v.s[0]) && !IsSpace(v.s[|v.s| - 1])))
  }

  /** Whatever the HTML, a cleaned value holds no whitespace but single spaces, none at either end. */
  lemma CleanValueClean(v: Value, getText: HtmlText)
    ensures IsClean(CleanValue(v, CleanText(getText)))
  {
    if v.Str? {
      var r := NormaliseSpace(getText(v.s));
      assert CleanValue(v, CleanText(getText)) == Str(r);
    }
  }

  /** A cleaned str is `" ".join(text.split())` of its HTML's text: its words, in order, one space apart. */
  lemma CleanValueWords(v: Value, getText: HtmlText)
    requires v.Str?
    ensures CleanValue(v, CleanText(getText)) == Str(Join(Words(getText(v.s)), " "))
  {
    NormaliseSpaceWords(getText(v.s));
  }

  /** A source dict after the loop over its keys: each entry keeps its key and position. */
  function CleanedFields(fs: Fields, clean: Cleaner): (r: Fields)
    ensures |r| == |fs|
  {
    if fs == [] then []
    else [(fs[0].0, CleanValue(fs[0].1, clean))] + CleanedFields(fs[1..], clean)
  }

  /** Entry by entry: the same key at the same position, holding the cleaned value. */
  lemma {:induction false} CleanedFieldsAt(fs: Fields, clean: Cleaner)
    ensures forall i :: 0 <= i < |fs| ==>
      CleanedFields(fs, clean)[i] == (fs[i].0, CleanValue(fs[i].1, clean))
  {
    if fs != [] {
      CleanedFieldsAt(fs[1..], clean);
      var r := CleanedFields(fs, clean);
      assert forall i :: 1 <= i < |r| ==> r[i] == CleanedFields(fs[1..], clean)[i - 1];
    }
  }

  /** Cleaning changes values only: the same keys, still none twice. */
  lemma CleanedFieldsKeys(fs: Fields, clean: Cleaner)
    ensures Keys(CleanedFields(fs, clean)) == Keys(fs)
    ensures DistinctKeys(fs) ==> DistinctKeys(CleanedFields(fs, clean))
  {
    var r := CleanedFields(fs, clean);
    CleanedFieldsAt(fs, clean);
    forall x | x in Keys(fs) ensures x in Keys(r) {
      var kv :| kv in fs && kv.0 == x;
      var i :| 0 <= i < |fs| && fs[i] == kv;
      assert r[i] in r;
    }
    forall x | x in Keys(r) ensures x in Keys(fs) {
      var kv :| kv in r && kv.0 == x;
      var i :| 0 <= i < |r| && r[i] == kv;
      assert fs[i] in fs;
    }
  }

  /** Each key of a cleaned source holds the cleaned value of the original. */
  lemma {:induction false} CleanedFieldsGet(fs: Fields, clean: Cleaner, k: string)
    ensures Get(CleanedFields(fs, clean), k).Some? <==> Get(fs, k).Some?
    ensures Get(fs, k).Some? ==> Get(CleanedFields(fs, clean), k) == Some(CleanValue(Get(fs, k).value, clean))
  {
    if fs != [] {
      var r := CleanedFields(fs, clean);
      assert r[0] == (fs[0].0, CleanValue(fs[0].1, clean));
      if fs[0].0 != k {
        CleanedFieldsGet(fs[1..], clean, k);
        assert r[1..] == CleanedFields(fs[1..], clean);
      }
    }
  }

  /** Whatever the HTML, every value `clean_text` reached is left clean. */
  lemma CleanedFieldsClean(fs: Fields, getText: HtmlText, k: string)
    ensures var r := Get(CleanedFields(fs, CleanText(getText)), k); r.Some? ==> IsClean(r.value)
  {
    CleanedFieldsGet(fs, CleanText(getText), k);
    if Get(fs, k).Some? {
      CleanValueClean(Get(fs, k).value, getText);
    }
  }

  /** `for key in source: if type(source[key]) == str: source[key] = self.clean_text(source[key])` */
  method CleanSource(source: Fields, clean: Cleaner) returns (data: Fields)
    ensures data == CleanedFields(source, clean)
  {
    data := source;
    for i := 0 to |data|
      invariant |data| == |source|
      invariant forall j :: 0 <= j < i ==> data[j] == (source[j].0, CleanValue(source[j].1, clean))
      invariant forall j :: i <= j < |data| ==> data[j] == source[j]
    {
      if data[i].1.Str? {
        data := data[i := (data[i].0, Str(clean(data[i].1.s)))];
      }
    }
    CleanedFieldsAt(source, clean);
  }

  /**
   * `source[key]` on a list of `n` items: an int key (a bool counts as 0
   * or 1) in range gives a position, counted from the end when negative;
   * an int key out of range raises IndexError; any other key raises
   * TypeError.
   */
  function ListIndex(key: Value, n: nat): (r: Result<nat>)
    ensures r.Ok? ==> r.value < n
    ensures r == Err(TypeError) <==> !key.Int? && !key.Bool?
    ensures key.Int? ==> (r.Ok? <==> -(n as int) <= key.i < n) && (r.Ok? ==> r.value == key.i || r.value == key.i + n)
    ensures key.Bool? ==> (r.Ok? <==> (if key.b then 1 else 0) < n) && (r.Ok? ==> r.value == if key.b then 1 else 0)
  {
    if !key.Int? && !key.Bool? then Err(TypeError)
    else
      var k := if key.Int? then key.i else if key.b then 1 else 0;
      if 0 <= k < n then Ok(k as nat)
      else if -(n as int) <= k < 0 then Ok((k + n) as nat)
      else Err(IndexError)
  }

  /**
   * The key loop over a list source, from position `i` on. Iterating a
   * list reads each position as it stands at that moment, and each element
   * read is used as an index into the same list; a str found there is
   * cleaned in place. The loop ends by raising, or runs out, and then
   * `source['content']` raises TypeError. The result is the list as the
   * loop leaves it and the error raised.
   */
  function ListWalk(items: seq<Value>, i: nat, clean: Cleaner): (r: (seq<Value>, Error))
    requires i <= |items|
    ensures |r.0| == |items|
    decreases |items| - i
  {
    if i == |items| then (items, TypeError)
    else match ListIndex(items[i], |items|)
      case Err(e) => (items, e)
      case Ok(j) => ListWalk(items[j := CleanValue(items[j], clean)], i + 1, clean)
  }

  /** Cleaning a value does not change how it indexes a list. */
  lemma CleanValueIndex(v: Value, clean: Cleaner, n: nat)
    ensures ListIndex(CleanValue(v, clean), n) == ListIndex(v, n)
  {
  }

  /** The key loop changes only str elements, and they stay strs. */
  lemma {:induction false} ListWalkKeeps(items: seq<Value>, i: nat, clean: Cleaner)
    requires i <= |items|
    ensures var r := ListWalk(items, i, clean);
      && (forall k :: 0 <= k < |items| && !items[k].Str? ==> r.0[k] == items[k])
      && (forall k :: 0 <= k < |items| && items[k].Str? ==> r.0[k].Str?)
    decreases |items| - i
  {
    if i < |items| && ListIndex(items[i], |items|).Ok? {
      var p := ListIndex(items[i], |items|).value;
      ListWalkKeeps(items[p := CleanValue(items[p], clean)], i + 1, clean);
    }
  }

  /** The first element from `i` on that is not a usable index is an out-of-range int. */
  predicate FirstBadIndexOutOfRange(items: seq<Value>, i: nat) {
    exists j :: i <= j < |items| && ListIndex(items[j], |items|) == Err(IndexError)
                && forall k :: i <= k < j ==> ListIndex(items[k], |items|).Ok?
  }

  /**
   * A list source always raises. It raises IndexError exactly when, from
   * position `i` on, the first element that is not a usable index is an
   * out-of-range int; otherwise TypeError.
   */
  lemma {:induction false} ListWalkOutcome(items: seq<Value>, i: nat, clean: Cleaner)
    requires i <= |items|
    ensures var e := ListWalk(items, i, clean).1;
      && (e == TypeError || e == IndexError)
      && (e == IndexError <==> FirstBadIndexOutOfRange(items, i))
    decreases |items| - i
  {
    var n := |items|;
    if i < n && ListIndex(items[i], n).Ok? {
      var p := ListIndex(items[i], n).value;
      var next := items[p := CleanValue(items[p], clean)];
      ListWalkOutcome(next, i + 1, clean);
      forall k | 0 <= k < n ensures ListIndex(next[k], n) == ListIndex(items[k], n) {
        CleanValueIndex(items[k], clean, n);
      }
      BadIndexStep(items, next, i);
    } else if i < n && ListIndex(items[i], n) == Err(IndexError) {
      assert FirstBadIndexOutOfRange(items, i) by {
        assert ListIndex(items[i], n) == Err(IndexError);
      }
    }
  }

  /** Past a usable index, the search for the first bad one goes on in a list that indexes alike. */
  lemma BadIndexStep(items: seq<Value>, next: seq<Value>, i: nat)
    requires i < |items| == |next| && ListIndex(items[i], |items|).Ok?
    requires forall k :: 0 <= k < |items| ==> ListIndex(next[k], |items|) == ListIndex(items[k], |items|)
    ensures FirstBadIndexOutOfRange(items, i) <==> FirstBadIndexOutOfRange(next, i + 1)
  {
    if FirstBadIndexOutOfRange(next, i + 1) {
      BadIndexBack(items, next, i);
    }
    if FirstBadIndexOutOfRange(items, i) {
      BadIndexOn(items, next, i);
    }
  }

  lemma BadIndexBack(items: seq<Value>, next: seq<Value>, i: nat)
    requires i < |items| == |next| && ListIndex(items[i], |items|).Ok?
    requires forall k :: 0 <= k < |items| ==> ListIndex(next[k], |items|) == ListIndex(items[k], |items|)
    requires FirstBadIndexOutOfRange(next, i + 1)
    ensures FirstBadIndexOutOfRange(items, i)
  {
    var n := |items|;
    var j :| i + 1 <= j < n && ListIndex(next[j], n) == Err(IndexError)
             && forall k :: i + 1 <= k < j ==> ListIndex(next[k], n).Ok?;
    assert ListIndex(items[j], n) == Err(IndexError);
    assert forall k :: i <= k < j ==> ListIndex(items[k], n).Ok?;
  }

  lemma BadIndexOn(items: seq<Value>, next: seq<Value>, i: nat)
    requires i < |items| == |next| && ListIndex(items[i], |items|).Ok?
    requires forall k :: 0 <= k < |items| ==> ListIndex(next[k], |items|) == ListIndex(items[k], |items|)
    requires FirstBadIndexOutOfRange(items, i)
    ensures FirstBadIndexOutOfRange(next, i + 1)
  {
    var n := |items|;
    var j :| i <= j < n && ListIndex(items[j], n) == Err(IndexError)
             && forall k :: i <= k < j ==> ListIndex(items[k], n).Ok?;
    assert j != i;
    assert ListIndex(next[j], n) == Err(IndexError);
    assert forall k :: i + 1 <= k < j ==> ListIndex(next[k], n).Ok?;
  }


  /** `for key in source: ...` on a list source: each position read as it now stands, a str it indexes cleaned in place. */
  method CleanListSource(items: seq<Value>, clean: Cleaner) returns (data: seq<Value>, e: Error)
    ensures (data, e) == ListWalk(items, 0, clean)
  {
    data := items;
    var i := 0;
    while i < |data|
      invariant |data| == |items| && i <= |data|
      invariant ListWalk(data, i, clean) == ListWalk(items, 0, clean)
      decreases |data| - i
    {
      match ListIndex(data[i], |data|)
      case Err(err) =>
        return data, err;
      case Ok(j) =>
        if data[j].Str? {
          data := data[j := Str(clean(data[j].s))];
        } else {
          assert data[j := CleanValue(data[j], clean)] == data;
        }
      i := i + 1;
    }
    e := TypeError;
  }

  /** A source as it stands after its cleaning loop: a dict or list cleaned, anything else unchanged. */
  function CleanedSource(source: Value, clean: Cleaner): Value {
    match source
    case Dict(fs) => Dict(CleanedFields(fs, clean))
    case List(items) => List(ListWalk(items, 0, clean).0)
    case _ => source
  }

  /**
   * What one source contributes. A list source raises what its key loop
   * or the final `source['content']` raises; any other source that is not
   * a dict raises TypeError (a str cannot be indexed by its own
   * characters, the rest cannot be iterated). A dict without `content`
   * raises KeyError; an empty cleaned `content` gives nothing; otherwise
   * one document.
   */
  function SourceDocument(source: Value, clean: Cleaner): Result<Option<NewsDocument>> {
    if source.List? then Err(ListWalk(source.items, 0, clean).1)
    else if !source.Dict? then Err(TypeError)
    else
      var fs := CleanedFields(source.fields, clean);
      match Get(fs, "content")
      case None => Err(KeyError)
      case Some(content) =>
        if content == Str("") then Ok(None)
        else Ok(Some(NewsDocument(content, fs)))
  }

  /** The list `[5, "url"]` as a source: its first element indexes past the end. */
  lemma ListSourceOutOfRange(clean: Cleaner)
    ensures SourceDocument(List([Int(5), Str("url")]), clean) == Err(IndexError)
    ensures CleanedSource(List([Int(5), Str("url")]), clean) == List([Int(5), Str("url")])
  {
  }

  /**
   * The list `[1, text]`: the 1 cleans the text in place, and the cleaned
   * text, read next as an index, raises TypeError.
   */
  lemma ListSourceCleansThenRaises(text: string, clean: Cleaner)
    ensures SourceDocument(List([Int(1), Str(text)]), clean) == Err(TypeError)
    ensures CleanedSource(List([Int(1), Str(text)]), clean) == List([Int(1), Str(clean(text))])
  {
    var items := [Int(1), Str(text)];
    var next := items[1 := CleanValue(items[1], clean)];
    assert ListWalk(items, 0, clean) == ListWalk(next, 1, clean);
    assert ListWalk(next, 1, clean) == (next, TypeError);
  }

  /**
   * The cases of `SourceDocument`: the errors, the skipped source whose
   * cleaned `content` is the empty string, and the document whose meta is
   * the whole cleaned source and whose content is its cleaned `content`.
   */
  lemma SourceDocumentCases(source: Value, clean: Cleaner)
    ensures var r := SourceDocument(source, clean);
      && (r.Err? <==> !source.Dict? || Get(source.fields, "content").None?)
      && (r.Err? ==> r.error == if source.Dict? then KeyError
                                else if source.List? then ListWalk(source.items, 0, clean).1
                                else TypeError)
      && (r.Err? ==> r.error == KeyError || r.error == TypeError || r.error == IndexError)
      && (r.Ok? ==> (r.value.None? <==> CleanValue(Get(source.fields, "content").value, clean) == Str("")))
      && (r.Ok? && r.value.Some? ==>
           && r.value.value.meta == CleanedFields(source.fields, clean)
           && r.value.value.content == CleanValue(Get(source.fields, "content").value, clean))
  {
    if source.Dict? {
      CleanedFieldsGet(source.fields, clean, "content");
    } else if source.List? {
      ListWalkOutcome(source.items, 0, clean);
    }
  }

  /** The documents of a list of sources, in source order; the first source that raises ends the run. */
  function NewsDocuments(sources: seq<Value>, clean: Cleaner): Result<seq<NewsDocument>>
    decreases |sources|
  {
    if sources == [] then Ok([])
    else match NewsDocuments(sources[..|sources| - 1], clean)
      case Err(e) => Err(e)
      case Ok(documents) =>
        match SourceDocument(sources[|sources| - 1], clean)
        case Err(e) => Err(e)
        case Ok(None) => Ok(documents)
        case Ok(Some(document)) => Ok(documents + [document])
  }

  /**
   * One pass of the outer loop of `BenzingaNews.run`: the source as its key
   * loop leaves it, and what it contributes.
   */
  method RunSource(source: Value, clean: Cleaner) returns (cleaned: Value, r: Result<Option<NewsDocument>>)
    ensures cleaned == CleanedSource(source, clean)
    ensures r == SourceDocument(source, clean)
  {
    if source.List? {
      var items, e := CleanListSource(source.items, clean);
      return List(items), Err(e);
    }
    if !source.Dict? {
      return source, Err(TypeError);
    }
    var data := CleanSource(source.fields, clean);
    cleaned := Dict(data);
    match Get(data, "content")
    case None =>
      r := Err(KeyError);
    case Some(content) =>
      if content == Str("") {
        r := Ok(None);
      } else {
        r := Ok(Some(NewsDocument(content, data)));
      }
  }

  /**
   * `BenzingaNews.run`. Each source dict is cleaned in place (so a source
   * is left cleaned even when its missing `content` then raises), and the
   * documents are those of `NewsDocuments`.
   */
  method Run(sources: array<Value>, clean: Cleaner) returns (r: Result<seq<NewsDocument>>)
    modifies sources
    ensures r == NewsDocuments(old(sources[..]), clean)
    ensures r.Ok? ==> forall j :: 0 <= j < sources.Length ==> sources[j] == CleanedSource(old(sources[j]), clean)
    ensures forall j :: 0 <= j < sources.Length ==>
              sources[j] == old(sources[j]) || sources[j] == CleanedSource(old(sources[j]), clean)
  {
    ghost var s := sources[..];
    var documents: seq<NewsDocument> := [];
    for i := 0 to sources.Length
      invariant NewsDocuments(s[..i], clean) == Ok(documents)
      invariant CleanedUpTo(sources, s, i, clean)
    {
      var contribution := CleanAt(sources, i, clean, s);
      NewsDocumentsStep(s, i, clean, documents);
      match contribution
      case Err(e) =>
        PrefixError(s, i + 1, clean);
        return Err(e);
      case Ok(None) =>
      case Ok(Some(document)) =>
        documents := documents + [document];
    }
    assert s[..sources.Length] == s;
    r := Ok(documents);
  }

  /** The sources before `i` are cleaned, those from `i` on are as they were (`s`). */
  ghost predicate CleanedUpTo(sources: array<Value>, s: seq<Value>, i: nat, clean: Cleaner)
    reads sources
  {
    && i <= sources.Length == |s|
    && (forall j :: 0 <= j < i ==> sources[j] == CleanedSource(s[j], clean))
    && (forall j :: i <= j < sources.Length ==> sources[j] == s[j])
  }

  /** The body of the source loop: clean source `i` in place and say what it contributes. */
  method CleanAt(sources: array<Value>, i: nat, clean: Cleaner, ghost s: seq<Value>)
      returns (contribution: Result<Option<NewsDocument>>)
    requires i < sources.Length && CleanedUpTo(sources, s, i, clean)
    modifies sources
    ensures CleanedUpTo(sources, s, i + 1, clean)
    ensures contribution == SourceDocument(s[i], clean)
  {
    var cleaned, c := RunSource(sources[i], clean);
    sources[i] := cleaned;
    contribution := c;
  }

  /** One more source: the documents so far, then what that source contributes. */
  lemma NewsDocumentsStep(s: seq<Value>, i: nat, clean: Cleaner, documents: seq<NewsDocument>)
    requires i < |s| && NewsDocuments(s[..i], clean) == Ok(documents)
    ensures NewsDocuments(s[..i + 1], clean) == match SourceDocument(s[i], clean)
      case Err(e) => Err(e)
      case Ok(None) => Ok(documents)
      case Ok(Some(document)) => Ok(documents + [document])
  {
    assert s[..i + 1][..i] == s[..i] && s[..i + 1][i] == s[i];
  }

  /** Once a prefix of the sources raises, the whole run raises the same error. */
  lemma {:induction false} PrefixError(sources: seq<Value>, n: nat, clean: Cleaner)
    requires n <= |sources| && NewsDocuments(sources[..n], clean).Err?
    ensures NewsDocuments(sources, clean) == NewsDocuments(sources[..n], clean)
    decreases |sources| - n
  {
    if n < |sources| {
      assert sources[..n + 1][..n] == sources[..n];
      PrefixError(sources, n + 1, clean);
    } else {
      assert sources[..n] == sources;
    }
  }

  /** One source contributes without raising exactly when it is a dict with a `content` key. */
  lemma SourceDocumentOk(source: Value, clean: Cleaner)
    ensures SourceDocument(source, clean).Ok? <==> source.Dict? && Get(source.fields, "content").Some?
  {
    if source.Dict? {
      CleanedFieldsGet(source.fields, clean, "content");
    }
  }

  /** A run succeeds exactly when every source is a dict with a `content` key. */
  lemma {:induction false} NewsDocumentsOk(sources: seq<Value>, clean: Cleaner)
    ensures NewsDocuments(sources, clean).Ok? <==> forall j :: 0 <= j < |sources| ==> HasContent(sources[j])
    decreases |sources|
  {
    if sources != [] {
      var n := |sources| - 1;
      NewsDocumentsOk(sources[..n], clean);
      SourceDocumentOk(sources[n], clean);
      NewsDocumentsLast(sources, clean);
      AllContentLast(sources);
    }
  }

  /** A dict with a `content` key: the sources a run accepts. */
  predicate HasContent(source: Value) {
    source.Dict? && Get(source.fields, "content").Some?
  }

  /** Every source has content exactly when all but the last do and the last does too. */
  lemma AllContentLast(sources: seq<Value>)
    requires sources != []
    ensures var n := |sources| - 1;
      (forall j :: 0 <= j < |sources| ==> HasContent(sources[j])) <==>
      (forall j :: 0 <= j < n ==> HasContent(sources[..n][j])) && HasContent(sources[n])
  {
    var n := |sources| - 1;
    assert forall j :: 0 <= j < n ==> sources[..n][j] == sources[j];
  }


  /** The last source decides a run whose earlier sources went through. */
  lemma NewsDocumentsLast(sources: seq<Value>, clean: Cleaner)
    requires sources != []
    ensures var n := |sources| - 1;
      NewsDocuments(sources, clean).Ok? <==> NewsDocuments(sources[..n], clean).Ok? && SourceDocument(sources[n], clean).Ok?
  {
  }

  /**
   * The documents of a run are the contributions of its sources in order:
   * the run over `a + b` is the run over `a` followed by the run over `b`,
   * and the first error wins.
   */
  lemma {:induction false} NewsDocumentsAppend(a: seq<Value>, b: seq<Value>, clean: Cleaner)
    ensures NewsDocuments(a + b, clean) == match NewsDocuments(a, clean)
      case Err(e) => Err(e)
      case Ok(da) =>
        match NewsDocuments(b, clean)
        case Err(e) => Err(e)
        case Ok(db) => Ok(da + db)
    decreases |b|
  {
    if b == [] {
      assert a + b == a;
      assert NewsDocuments(b, clean) == Ok([]);
      if NewsDocuments(a, clean).Ok? {
        assert NewsDocuments(a, clean).value + [] == NewsDocuments(a, clean).value;
      }
    } else {
      var n := |b| - 1;
      NewsDocumentsAppend(a, b[..n], clean);
      assert (a + b)[..|a + b| - 1] == a + b[..n];
      assert (a + b)[|a + b| - 1] == b[n];
      match NewsDocuments(a, clean)
      case Err(e) =>
      case Ok(da) =>
        match NewsDocuments(b[..n], clean)
        case Err(e) =>
        case Ok(db) =>
          match SourceDocument(b[n], clean)
          case Err(e) =>
          case Ok(None) =>
          case Ok(Some(d)) =>
            assert da + (db + [d]) == (da + db) + [d];
    }
  }

  /** The documents of a successful run: those before the last source, then what the last contributes. */
  lemma NewsDocumentsLastOk(sources: seq<Value>, clean: Cleaner)
    requires sources != [] && NewsDocuments(sources, clean).Ok?
    ensures var n := |sources| - 1;
      && NewsDocuments(sources[..n], clean).Ok?
      && SourceDocument(sources[n], clean).Ok?
      && NewsDocuments(sources, clean).value == NewsDocuments(sources[..n], clean).value +
           match SourceDocument(sources[n], clean).value
           case None => []
           case Some(d) => [d]
  {
    var n := |sources| - 1;
    NewsDocumentsLast(sources, clean);
    match SourceDocument(sources[n], clean).value
    case None =>
      assert NewsDocuments(sources[..n], clean).value + [] == NewsDocuments(sources[..n], clean).value;
    case Some(d) =>
  }

  /** No source yields more than one document. */
  lemma {:induction false} NewsDocumentsLength(sources: seq<Value>, clean: Cleaner)
    requires NewsDocuments(sources, clean).Ok?
    ensures |NewsDocuments(sources, clean).value| <= |sources|
    decreases |sources|
  {
    if sources != [] {
      NewsDocumentsLastOk(sources, clean);
      NewsDocumentsLength(sources[..|sources| - 1], clean);
    }
  }

  /** Every document of a run is what one of its sources contributes. */
  lemma {:induction false} NewsDocumentsFromSources(sources: seq<Value>, clean: Cleaner, d: NewsDocument)
    requires NewsDocuments(sources, clean).Ok? && d in NewsDocuments(sources, clean).value
    ensures exists j :: 0 <= j < |sources| && SourceDocument(sources[j], clean) == Ok(Some(d))
    decreases |sources|
  {
    var n := |sources| - 1;
    NewsDocumentsLastOk(sources, clean);
    if d in NewsDocuments(sources[..n], clean).value {
      NewsDocumentsFromSources(sources[..n], clean, d);
      var j :| 0 <= j < n && SourceDocument(sources[..n][j], clean) == Ok(Some(d));
      assert sources[..n][j] == sources[j];
    } else {
      assert SourceDocument(sources[n], clean) == Ok(Some(d));
    }
  }

  /** Every document a source contributes is in the output of a successful run. */
  lemma {:induction false} NewsDocumentsHasSources(sources: seq<Value>, clean: Cleaner, j: nat)
    requires NewsDocuments(sources, clean).Ok? && j < |sources|
    requires SourceDocument(sources[j], clean).Ok? && SourceDocument(sources[j], clean).value.Some?
    ensures SourceDocument(sources[j], clean).value.value in NewsDocuments(sources, clean).value
    decreases |sources|
  {
    var n := |sources| - 1;
    NewsDocumentsLastOk(sources, clean);
    var d := SourceDocument(sources[j], clean).value.value;
    var prev := NewsDocuments(sources[..n], clean).value;
    var last := match SourceDocument(sources[n], clean).value case None => [] case Some(e) => [e];
    assert NewsDocuments(sources, clean).value == prev + last;
    if j < n {
      assert sources[..n][j] == sources[j];
      NewsDocumentsHasSources(sources[..n], clean, j);
      assert d in prev;
    } else {
      assert j == n;
      assert SourceDocument(sources[n], clean).value == Some(d);
    }
  }

  /** A document keeps the cleaned `content` in its meta, under `content`, and it is never the empty string. */
  lemma DocumentContent(source: Value, clean: Cleaner, d: NewsDocument)
    requires SourceDocument(source, clean) == Ok(Some(d))
    ensures d.content != Str("")
    ensures Get(d.meta, "content") == Some(d.content)
    ensures source.Dict? && Keys(d.meta) == Keys(source.fields)
    ensures DistinctKeys(source.fields) ==> DistinctKeys(d.meta)
  {
    CleanedFieldsKeys(source.fields, clean);
  }

  /**
   * With the component's `clean_text`, every str in a document's meta, its
   * content included, holds single spaces only and none at either end.
   */
  lemma DocumentClean(source: Value, getText: HtmlText, d: NewsDocument, k: string)
    requires SourceDocument(source, CleanText(getText)) == Ok(Some(d))
    ensures Get(d.meta, k).Some? ==> IsClean(Get(d.meta, k).value)
    ensures IsClean(d.content)
  {
    CleanedFieldsClean(source.fields, getText, k);
    CleanedFieldsClean(source.fields, getText, "content");
  }

  /** A run over the single source a dataflow step hands in: nothing, or that source's one document. */
  lemma NewsDocumentsSingle(source: Value, clean: Cleaner)
    ensures NewsDocuments([source], clean) == match SourceDocument(source, clean)
      case Err(e) => Err(e)
      case Ok(None) => Ok([])
      case Ok(Some(d)) => Ok([d])
  {
    assert [source][..0] == [] && [source][0] == source;
    assert NewsDocuments([], clean) == Ok([]);
    match SourceDocument(source, clean)
    case Err(e) =>
    case Ok(None) =>
    case Ok(Some(d)) =>
      assert [] + [d] == [d];
  }
}
