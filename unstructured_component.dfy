/**
 * The post-processing in `UnstructuredParser.run`. Each source is
 * downloaded and partitioned into elements by the Unstructured API. Each
 * element becomes a Haystack `Document`, unless its text is empty once
 * tags and punctuation are stripped. The ticker symbols found in all
 * elements are then written into every document.
 *
 * Three inputs are parameters (`Services`): the download, the partition
 * call and `uuid.uuid4`. The download gives bytes, or `None` on failure.
 * The partition call gives the elements, the `SDKError` that `run`
 * catches, or another error that escapes. `uuid.uuid4` is modelled as the
 * n-th identifier drawn.
 */
module UnstructuredComponent {
  import opened Text
  import opened Values
  import opened Reader

  /** An element of the partition: its `text` and `metadata.to_dict()`. */
  datatype Element = Element(text: string, metadata: Fields)

  /** What `client.general.partition` (with `dict_to_elements`) gives for one file. */
  datatype Partition = Partitioned(elements: seq<Element>) | SdkError | Raised(error: Error)

  datatype Services = Services(
    download: string -> Option<seq<bv8>>,
    partition: (string, seq<bv8>) -> Partition,
    uuid: nat -> string)

  /** The local state of `run`: `documents`, `all_symbols`, and how many ids have been drawn. */
  datatype ParseState = ParseState(documents: seq<Document>, symbols: set<string>, drawn: nat)

  const Start: ParseState := ParseState([], {}, 0)

  const SymbolTag: string := "<CLASS-CONTRACT-TICKER-SYMBOL>"
  const Nbsp: string := "&nbsp;"

  /**
   * `re.findall(r'<CLASS-CONTRACT-TICKER-SYMBOL>(\S+)', s)`: for each tag
   * followed by at least one non-whitespace character, left to right, the
   * run of non-whitespace after it; the scan resumes after that run.
   */
  function FindSymbols(s: string): (r: seq<string>)
    ensures forall i :: 0 <= i < |r| ==> r[i] != [] && forall j :: 0 <= j < |r[i]| ==> !IsSpace(r[i][j])
    decreases |s|
  {
    if s == [] then []
    else if StartsWith(s, SymbolTag) && |s| > |SymbolTag| && !IsSpace(s[|SymbolTag|]) then
      var run := NonSpaceRun(s[|SymbolTag|..]);
      [run] + FindSymbols(s[|SymbolTag| + |run|..])
    else FindSymbols(s[1..])
  }

  /** Text without the tag holds no symbol. */
  lemma {:induction false} NoTagNoSymbols(s: string)
    requires !Contains(s, SymbolTag)
    ensures FindSymbols(s) == []
    decreases |s|
  {
    if s != [] {
      NoTagNoSymbols(s[1..]);
    }
  }

  /** The run after a tag is taken whole, up to the next whitespace. */
  lemma {:induction false} NonSpaceRunPrefix(sym: string, rest: string)
    requires forall j :: 0 <= j < |sym| ==> !IsSpace(sym[j])
    requires rest == [] || IsSpace(rest[0])
    ensures NonSpaceRun(sym + rest) == sym
    decreases |sym|
  {
    if sym == [] {
      assert sym + rest == rest;
    } else {
      assert (sym + rest)[1..] == sym[1..] + rest;
      NonSpaceRunPrefix(sym[1..], rest);
    }
  }

  /** A tag, a symbol and then whitespace (or the end): the symbol comes first, then whatever the rest holds. */
  lemma SymbolAfterTag(sym: string, rest: string)
    requires sym != [] && forall j :: 0 <= j < |sym| ==> !IsSpace(sym[j])
    requires rest == [] || IsSpace(rest[0])
    ensures FindSymbols(SymbolTag + sym + rest) == [sym] + FindSymbols(rest)
  {
    var n := |SymbolTag|;
    var s := SymbolTag + (sym + rest);
    assert SymbolTag + sym + rest == s;
    PrefixAndRest(SymbolTag, sym + rest);
    assert s[n] == sym[0];
    NonSpaceRunPrefix(sym, rest);
    FindSymbolsAtTag(s);
    assert s[n + |sym|..] == rest by { assert s[n..][|sym|..] == rest; }
  }

  /** One step of the scan at a tag followed by a non-space. */
  lemma FindSymbolsAtTag(s: string)
    requires StartsWith(s, SymbolTag) && |s| > |SymbolTag| && !IsSpace(s[|SymbolTag|])
    ensures FindSymbols(s) == [NonSpaceRun(s[|SymbolTag|..])] + FindSymbols(s[|SymbolTag| + |NonSpaceRun(s[|SymbolTag|..])|..])
  {
  }

  /** A character the cleaning pattern leaves alone: an ASCII letter or digit, `-`, or whitespace other than tab and newline. */
  predicate Kept(c: char) {
    (IsAlnum(c) || IsSpace(c) || c == '-') && c != '\t' && c != '\n'
  }

  /**
   * `re.sub(r'<.*?>|\t|\n+|&nbsp;|[^a-zA-Z0-9\s-]', '', s)`: at each
   * position the first alternative that matches is removed, namely a shortest
   * `<...>` on one line, a tab, newlines, `&nbsp;` or any other character
   * outside letters, digits, whitespace and `-`.
   */
  function CleanedText(s: string): (r: string)
    ensures |r| <= |s|
    ensures forall i :: 0 <= i < |r| ==> Kept(r[i])
    decreases |s|
  {
    if s == [] then []
    else if s[0] == '<' && TagEnd(s, 1).Some? then CleanedText(s[TagEnd(s, 1).value + 1..])
    else if StartsWith(s, Nbsp) then CleanedText(s[|Nbsp|..])
    else if Kept(s[0]) then [s[0]] + CleanedText(s[1..])
    else CleanedText(s[1..])
  }

  /**
   * Without `<` or `&` no span is removed whole, so the cleaned text is
   * empty exactly when no character is kept.
   */
  lemma {:induction false} CleanedEmptyIffNothingKept(s: string)
    requires '<' !in s && '&' !in s
    ensures CleanedText(s) == [] <==> forall i :: 0 <= i < |s| ==> !Kept(s[i])
    decreases |s|
  {
    if s != [] {
      assert !StartsWith(s, Nbsp) by {
        assert s[0] != Nbsp[0];
      }
      assert '<' !in s[1..] && '&' !in s[1..];
      CleanedEmptyIffNothingKept(s[1..]);
      assert forall i :: 1 <= i < |s| ==> s[i] == s[1..][i - 1];
    }
  }

  /** Markup alone is skipped; a lone space is not, since the pattern keeps spaces. */
  lemma CleanedExamples()
    ensures CleanedText("<p>") == []
    ensures CleanedText(" ") == " "
    ensures CleanedText("\t\n") == []
  {
    assert TagEnd("<p>", 2) == Some(2);
    assert "<p>"[3..] == [];
    assert IsSpace(' ') && IsSpace('\t') && IsSpace('\n');
    assert " "[1..] == [];
    assert "\t\n"[1..] == "\n" && "\n"[1..] == [];
  }

  /**
   * The metadata of a kept element: `symbol` set to the comma-joined
   * matches when there are any, `orig_elements` popped, `source_url` set.
   */
  function ElementMeta(source: string, item: Element, matches: seq<string>): Fields {
    var md := if matches == [] then item.metadata else Set(item.metadata, "symbol", Str(Join(matches, ",")));
    Set(Pop(md, "orig_elements"), "source_url", Str(source))
  }

  /** The metadata holds the element's own keys but `orig_elements`, plus `source_url` and any `symbol`. */
  lemma ElementMetaShape(source: string, item: Element, matches: seq<string>, k: string)
    ensures var meta := ElementMeta(source, item, matches);
      && Keys(meta) == (Keys(item.metadata) + (if matches == [] then {} else {"symbol"}) - {"orig_elements"}) + {"source_url"}
      && Get(meta, "orig_elements") == None
      && Get(meta, "source_url") == Some(Str(source))
      && (matches != [] ==> Get(meta, "symbol") == Some(Str(Join(matches, ","))))
      && (k != "orig_elements" && k != "source_url" && k != "symbol" ==> Get(meta, k) == Get(item.metadata, k))
      && (DistinctKeys(item.metadata) ==> DistinctKeys(meta))
  {
  }

  /** The set of a list's items: what `set.update(list)` adds. */
  function Elements(items: seq<string>): (r: set<string>)
    ensures forall x :: x in r <==> x in items
  {
    set x | x in items
  }

  /** The body of the inner loop for one element. */
  function ElementStep(source: string, uuid: nat -> string, st: ParseState, item: Element): (r: ParseState)
  {
    var matches := FindSymbols(item.text);
    var symbols := if matches == [] then st.symbols else st.symbols + Elements(matches);
    if CleanedText(item.text) == [] then ParseState(st.documents, symbols, st.drawn + 1)
    else
      var document := Document(Some(uuid(st.drawn)), item.text, ElementMeta(source, item, matches), None);
      ParseState(st.documents + [document], symbols, st.drawn + 1)
  }

  /**
   * One element: an id is drawn and its symbols collected whether or not it
   * is kept; it is kept, as one document carrying the original text, exactly
   * when its cleaned text is not empty.
   */
  lemma ElementStepCases(source: string, uuid: nat -> string, st: ParseState, item: Element)
    ensures var r := ElementStep(source, uuid, st, item);
      && r.drawn == st.drawn + 1
      && r.symbols == st.symbols + Elements(FindSymbols(item.text))
      && (CleanedText(item.text) == [] ==> r.documents == st.documents)
      && (CleanedText(item.text) != [] ==>
            r.documents == st.documents + [Document(Some(uuid(st.drawn)), item.text, ElementMeta(source, item, FindSymbols(item.text)), None)])
  {
    if FindSymbols(item.text) == [] {
      assert Elements(FindSymbols(item.text)) == {};
    }
    ElementStepDocuments(source, uuid, st, item);
  }

  /** The documents after one element: the kept element appended, or none. */
  lemma ElementStepDocuments(source: string, uuid: nat -> string, st: ParseState, item: Element)
    ensures var r := ElementStep(source, uuid, st, item);
      && (CleanedText(item.text) == [] ==> r.documents == st.documents)
      && (CleanedText(item.text) != [] ==>
            r.documents == st.documents + [Document(Some(uuid(st.drawn)), item.text, ElementMeta(source, item, FindSymbols(item.text)), None)])
  {
  }

  /** The state after the elements of one partition, in order. */
  function ElementsState(source: string, uuid: nat -> string, st: ParseState, items: seq<Element>): (r: ParseState)
    decreases |items|
  {
    if items == [] then st
    else ElementStep(source, uuid, ElementsState(source, uuid, st, items[..|items| - 1]), items[|items| - 1])
  }

  /** Whether the download gives content that `if file_content:` accepts. */
  predicate Downloaded(services: Services, source: string) {
    services.download(source).Some? && services.download(source).value != []
  }

  /** The body of the outer loop for one source: download, partition, then the elements. */
  function SourceStep(services: Services, st: ParseState, source: string): (r: Result<ParseState>)
  {
    if !Downloaded(services, source) then Ok(st)
    else match services.partition(source, services.download(source).value)
      case SdkError => Ok(st)
      case Raised(e) => Err(e)
      case Partitioned(items) => Ok(ElementsState(source, services.uuid, st, items))
  }

  /** The state after the sources, in order; an error that is not an `SDKError` ends the run. */
  function SourcesState(services: Services, sources: seq<string>): (r: Result<ParseState>)
    decreases |sources|
  {
    if sources == [] then Ok(Start)
    else match SourcesState(services, sources[..|sources| - 1])
      case Err(e) => Err(e)
      case Ok(st) => SourceStep(services, st, sources[|sources| - 1])
  }

  /** A document with `meta['symbol']` overwritten. */
  function WithSymbol(d: Document, symbols: string): (r: Document)
    ensures r.id == d.id && r.content == d.content && r.embedding == d.embedding
    ensures Get(r.meta, "symbol") == Some(Str(symbols))
    ensures forall k :: k != "symbol" ==> Get(r.meta, k) == Get(d.meta, k)
  {
    d.(meta := Set(d.meta, "symbol", Str(symbols)))
  }

  /** Every document with `meta['symbol']` overwritten by the same string. */
  function Override(documents: seq<Document>, symbols: string): (r: seq<Document>)
    ensures |r| == |documents|
    ensures forall i :: 0 <= i < |r| ==> r[i] == WithSymbol(documents[i], symbols)
  {
    seq(|documents|, i requires 0 <= i < |documents| => WithSymbol(documents[i], symbols))
  }

  /** `order` lists every element of `s` once: an iteration order of the set. */
  predicate Enumerates(order: seq<string>, s: set<string>) {
    |order| == |s| && (forall x :: x in order ==> x in s) && (forall x :: x in s ==> x in order)
  }

  /** What `run` returns once its first loop ends in `st`, given the order in which it iterates `all_symbols`. */
  function Finished(st: ParseState, order: seq<string>): (r: seq<Document>)
  {
    if st.symbols == {} then st.documents else Override(st.documents, Join(order, ","))
  }

  /** The inner loop's body: one element. */
  method ParseElement(source: string, uuid: nat -> string, documents: seq<Document>, allSymbols: set<string>, drawn: nat, item: Element)
    returns (documents': seq<Document>, allSymbols': set<string>, drawn': nat)
    ensures ParseState(documents', allSymbols', drawn') == ElementStep(source, uuid, ParseState(documents, allSymbols, drawn), item)
  {
    var docId := uuid(drawn);
    drawn' := drawn + 1;
    var metadata := item.metadata;
    var symbolMatches := FindSymbols(item.text);
    allSymbols' := allSymbols;
    if symbolMatches != [] {
      var symbols := Join(symbolMatches, ",");
      allSymbols' := allSymbols + Elements(symbolMatches);
      metadata := Set(metadata, "symbol", Str(symbols));
    }
    var cleanedText := CleanedText(item.text);
    if cleanedText == [] {
      documents' := documents;
      return;
    }
    metadata := Set(Pop(metadata, "orig_elements"), "source_url", Str(source));
    documents' := documents + [Document(Some(docId), item.text, metadata, None)];
    ghost var step := ElementStep(source, uuid, ParseState(documents, allSymbols, drawn), item);
    assert step.documents == documents' && step.symbols == allSymbols' && step.drawn == drawn';
  }

  /** The inner loop: the elements of one partition, in order. */
  method ParseElements(source: string, uuid: nat -> string, st: ParseState, elements: seq<Element>) returns (r: ParseState)
    ensures r == ElementsState(source, uuid, st, elements)
  {
    var documents, allSymbols, drawn := st.documents, st.symbols, st.drawn;
    for i := 0 to |elements|
      invariant ParseState(documents, allSymbols, drawn) == ElementsState(source, uuid, st, elements[..i])
    {
      assert elements[..i + 1][..i] == elements[..i];
      documents, allSymbols, drawn := ParseElement(source, uuid, documents, allSymbols, drawn, elements[i]);
    }
    assert elements[..|elements|] == elements;
    r := ParseState(documents, allSymbols, drawn);
  }

  /** The outer loop's body: one source; an `SDKError` from the partition is swallowed. */
  method ParseSource(services: Services, st: ParseState, source: string) returns (r: Result<ParseState>)
    ensures r == SourceStep(services, st, source)
  {
    var fileContent := services.download(source);
    if fileContent.None? || fileContent.value == [] {
      return Ok(st);
    }
    var resp := services.partition(source, fileContent.value);
    match resp
    case SdkError =>
      r := Ok(st);
    case Raised(e) =>
      r := Err(e);
    case Partitioned(elements) =>
      var next := ParseElements(source, services.uuid, st, elements);
      r := Ok(next);
  }

  /** Iterating a set: each element once, in an order the set does not fix. */
  method Enumerate(s: set<string>) returns (order: seq<string>)
    ensures Enumerates(order, s)
  {
    order := [];
    var rest := s;
    while rest != {}
      invariant rest !! (set x | x in order) && rest + (set x | x in order) == s
      invariant |order| + |rest| == |s|
      decreases |rest|
    {
      var x :| x in rest;
      assert (set y | y in order + [x]) == (set y | y in order) + {x};
      order := order + [x];
      rest := rest - {x};
    }
    assert (set x | x in order) == s;
  }

  /** The closing loop: `document.meta['symbol'] = symbols_str` for every document. */
  method ShareSymbols(documents: seq<Document>, symbolsStr: string) returns (r: seq<Document>)
    ensures r == Override(documents, symbolsStr)
  {
    r := documents;
    for i := 0 to |r|
      invariant |r| == |documents|
      invariant forall j :: 0 <= j < i ==> r[j] == WithSymbol(documents[j], symbolsStr)
      invariant forall j :: i <= j < |r| ==> r[j] == documents[j]
    {
      r := r[i := WithSymbol(r[i], symbolsStr)];
    }
  }

  /**
   * `UnstructuredParser.run`: the documents of every source, and then, if
   * any symbol was found, the comma-joined symbols (in some iteration order
   * of the set) written into every document.
   */
  method Run(services: Services, sources: seq<string>) returns (r: Result<seq<Document>>)
    ensures SourcesState(services, sources).Err? ==> r == Err(SourcesState(services, sources).error)
    ensures SourcesState(services, sources).Ok? ==>
      r.Ok? && exists order :: Enumerates(order, SourcesState(services, sources).value.symbols)
                               && r.value == Finished(SourcesState(services, sources).value, order)
  {
    var st := Start;
    for i := 0 to |sources|
      invariant SourcesState(services, sources[..i]) == Ok(st)
    {
      assert sources[..i + 1][..i] == sources[..i];
      var next := ParseSource(services, st, sources[i]);
      if next.Err? {
        SourcesPrefixError(services, sources, i + 1);
        return Err(next.error);
      }
      st := next.value;
    }
    assert sources[..|sources|] == sources;
    var documents := st.documents;
    var order := Enumerate(st.symbols);
    if st.symbols != {} {
      var symbolsStr := Join(order, ",");
      documents := ShareSymbols(documents, symbolsStr);
    }
    assert documents == Finished(st, order);
    r := Ok(documents);
  }

  /** Once a prefix of the sources raises, the whole run raises the same error. */
  lemma {:induction false} SourcesPrefixError(services: Services, sources: seq<string>, n: nat)
    requires n <= |sources| && SourcesState(services, sources[..n]).Err?
    ensures SourcesState(services, sources) == SourcesState(services, sources[..n])
    decreases |sources| - n
  {
    if n < |sources| {
      assert sources[..n + 1][..n] == sources[..n];
      SourcesPrefixError(services, sources, n + 1);
    } else {
      assert sources[..n] == sources;
    }
  }

  /** A source whose download fails or comes back empty, or whose partition raises `SDKError`, contributes nothing. */
  predicate Inert(services: Services, source: string) {
    !Downloaded(services, source) || services.partition(source, services.download(source).value).SdkError?
  }

  /** An inert source leaves the state as it was, and the sources after it are still processed as if it were absent. */
  lemma {:induction false} InertSourceIgnored(services: Services, before: seq<string>, source: string, after: seq<string>)
    requires Inert(services, source)
    ensures SourcesState(services, before + [source] + after) == SourcesState(services, before + after)
    decreases |after|
  {
    if after == [] {
      var s := before + [source];
      assert s[..|s| - 1] == before && s[|s| - 1] == source;
      assert before + [source] + after == s && before + after == before;
    } else {
      var n := |after| - 1;
      InertSourceIgnored(services, before, source, after[..n]);
      var s, t := before + [source] + after, before + after;
      assert s[..|s| - 1] == before + [source] + after[..n] && s[|s| - 1] == after[n];
      assert t[..|t| - 1] == before + after[..n] && t[|t| - 1] == after[n];
    }
  }

  /**
   * Every document the first loop keeps has no `orig_elements`, a
   * `source_url` naming one of the sources, and text that does not clean to
   * the empty string.
   */
  ghost predicate Shaped(d: Document, sources: seq<string>) {
    && Get(d.meta, "orig_elements") == None
    && (exists s :: s in sources && Get(d.meta, "source_url") == Some(Str(s)))
    && CleanedText(d.content) != []
  }

  /** One element keeps the documents shaped, and only appends. */
  lemma ElementStepShaped(source: string, uuid: nat -> string, st: ParseState, item: Element, sources: seq<string>)
    requires source in sources
    requires forall i :: 0 <= i < |st.documents| ==> Shaped(st.documents[i], sources)
    ensures var r := ElementStep(source, uuid, st, item);
      && (forall i :: 0 <= i < |r.documents| ==> Shaped(r.documents[i], sources))
      && |st.documents| <= |r.documents| <= |st.documents| + 1
      && r.documents[..|st.documents|] == st.documents
  {
    var r := ElementStep(source, uuid, st, item);
    if CleanedText(item.text) != [] {
      var d := r.documents[|st.documents|];
      ElementMetaShape(source, item, FindSymbols(item.text), "");
      assert Shaped(d, sources) by {
        assert Get(d.meta, "source_url") == Some(Str(source));
      }
      assert r.documents[..|st.documents|] == st.documents;
    }
  }

  /** The elements of one partition keep the documents shaped, draw one id each, and add at most one document each. */
  lemma {:induction false} ElementsStateShaped(source: string, uuid: nat -> string, st: ParseState, items: seq<Element>, sources: seq<string>)
    requires source in sources
    requires forall i :: 0 <= i < |st.documents| ==> Shaped(st.documents[i], sources)
    ensures var r := ElementsState(source, uuid, st, items);
      && (forall i :: 0 <= i < |r.documents| ==> Shaped(r.documents[i], sources))
      && r.drawn == st.drawn + |items|
      && |st.documents| <= |r.documents| <= |st.documents| + |items|
      && r.documents[..|st.documents|] == st.documents
    decreases |items|
  {
    if items != [] {
      var n := |items| - 1;
      var mid := ElementsState(source, uuid, st, items[..n]);
      ElementsStateShaped(source, uuid, st, items[..n], sources);
      ElementStepShaped(source, uuid, mid, items[n], sources);
      var r := ElementStep(source, uuid, mid, items[n]);
      assert r.documents[..|st.documents|] == mid.documents[..|st.documents|];
    }
  }

  /** The first loop keeps every document shaped: the invariant holds over the whole run. */
  lemma {:induction false} SourcesStateShaped(services: Services, sources: seq<string>)
    ensures var r := SourcesState(services, sources);
      r.Ok? ==> forall i :: 0 <= i < |r.value.documents| ==> Shaped(r.value.documents[i], sources)
    decreases |sources|
  {
    if sources != [] {
      var n := |sources| - 1;
      SourcesStateShaped(services, sources[..n]);
      var prev := SourcesState(services, sources[..n]);
      if prev.Ok? {
        forall i | 0 <= i < |prev.value.documents|
          ensures Shaped(prev.value.documents[i], sources)
        {
          var d := prev.value.documents[i];
          var s :| s in sources[..n] && Get(d.meta, "source_url") == Some(Str(s));
          assert s in sources;
        }
        if Downloaded(services, sources[n]) && services.partition(sources[n], services.download(sources[n]).value).Partitioned? {
          ElementsStateShaped(sources[n], services.uuid, prev.value, services.partition(sources[n], services.download(sources[n]).value).elements, sources);
        }
      }
    }
  }

  /**
   * The closing override changes only `symbol`: every returned document
   * keeps its id, content and every other key, and all of them carry the
   * same `symbol` when any symbol was found.
   */
  lemma FinishedDocuments(st: ParseState, order: seq<string>, i: int, k: string)
    requires 0 <= i < |st.documents|
    ensures var r := Finished(st, order);
      && |r| == |st.documents|
      && r[i].id == st.documents[i].id && r[i].content == st.documents[i].content
      && (k != "symbol" ==> Get(r[i].meta, k) == Get(st.documents[i].meta, k))
      && (st.symbols != {} ==> Get(r[i].meta, "symbol") == Some(Str(Join(order, ","))))
      && (st.symbols == {} ==> r[i] == st.documents[i])
  {
  }
}
