/**
 * The batch `JSONLReader.run` of the workshop's indexing pipeline: every
 * source (a file path or a ByteStream) holds JSON lines; each line names a
 * URL and some metadata; the URL's page, fetched and cleaned by a Haystack
 * pipeline, becomes the content of one Haystack `Document`.
 *
 * Opening a file, UTF-8 decoding, `json.loads` and the fetch pipeline are
 * inputs (the `Io` record): each returns its value or the error it raises.
 */
module RagPipelines {
  import opened Text
  import opened Values
  import opened Reader
  import Decoder

  /** What `run` is handed per source: a `str`/`Path`, a `ByteStream`, or an object of any other type. */
  datatype Source = FilePath(path: string) | ByteStream(data: seq<bv8>) | Unsupported

  /**
   * The outside world of `run`: reading a whole file, decoding bytes as
   * UTF-8, `json.loads` (`Err(JsonDecodeError)` on malformed text), and the
   * fetcher/converter/cleaner pipeline, which yields the cleaner's documents
   * for one URL.
   */
  datatype Io = Io(
    read: string -> Result<string>,
    decode: seq<bv8> -> Result<string>,
    loads: string -> Result<Value>,
    fetch: Value -> Result<seq<Document>>)

  /** A configured `JSONLReader`: `metadata_fields or []` and `link_keyword`. */
  datatype JsonlReader = JsonlReader(metadataFields: seq<string>, linkKeyword: string)

  /** The keyword `JSONLReader()` looks the URL up under when none is given. */
  const DefaultLinkKeyword: string := "url"

  /** `_extract_content`: a path is read as a file, a ByteStream decoded; any other type raises ValueError. */
  function ExtractContent(source: Source, io: Io): (r: Result<string>)
    ensures source.Unsupported? ==> r == Err(ValueError)
    ensures source.FilePath? ==> r == io.read(source.path)
    ensures source.ByteStream? ==> r == io.decode(source.data)
  {
    match source
    case FilePath(path) => io.read(path)
    case ByteStream(data) => io.decode(data)
    case Unsupported => Err(ValueError)
  }

  /** `file_content.strip().split('\n')`. */
  function ContentLines(content: string): (r: seq<string>)
    ensures |r| >= 1 && forall i :: 0 <= i < |r| ==> '\n' !in r[i]
    ensures Join(r, "\n") == Strip(content)
  {
    Split(Strip(content), '\n')
  }

  /**
   * The dict a decoded line stands for: the line itself when it is a dict,
   * the second element of any two-element list whose second element is a
   * dict (whatever the first), and nothing otherwise (the line is skipped).
   */
  function LineEvent(data: Value): (r: Option<Fields>)
    ensures r.Some? <==> data.Dict? || (data.List? && |data.items| == 2 && data.items[1].Dict?)
    ensures data.Dict? ==> r == Some(data.fields)
    ensures data.List? && r.Some? ==> r == Some(data.items[1].fields)
  {
    if data.List? && |data.items| == 2 && data.items[1].Dict? then Some(data.items[1].fields)
    else if data.Dict? then Some(data.fields)
    else None
  }

  /** `data.get(self.link_keyword)`: the value under the link keyword, or None. */
  function LinkOf(reader: JsonlReader, event: Fields): (r: Value)
    ensures Get(event, reader.linkKeyword).Some? ==> r == Get(event, reader.linkKeyword).value
    ensures Get(event, reader.linkKeyword).None? ==> r == Null
  {
    match Get(event, reader.linkKeyword)
    case None => Null
    case Some(v) => v
  }

  /** The test of line 94, `url and '-index.html' in url`, which raises TypeError on a truthy non-container. */
  function IsIndexLink(url: Value): (r: Result<bool>)
    ensures !Truthy(url) ==> r == Ok(false)
    ensures url.Str? ==> r == Ok(Contains(url.s, IndexSuffix))
    ensures r.Err? <==> Truthy(url) && In(IndexSuffix, url).Err?
  {
    if !Truthy(url) then Ok(false) else In(IndexSuffix, url)
  }

  /**
   * What one accepted event contributes. An index link takes the rewrite
   * branch, which only rebinds `url` (and raises AttributeError on a list or
   * dict, which have no `replace`), so it yields no document. Any other link
   * is fetched, and the first cleaned document's content becomes a new
   * `Document` whose meta is the selected fields.
   */
  function EventOutcome(reader: JsonlReader, event: Fields, fetch: Value -> Result<seq<Document>>): Result<Option<Document>>
  {
    var url := LinkOf(reader, event);
    match IsIndexLink(url)
    case Err(e) => Err(e)
    case Ok(true) => if url.Str? then Ok(None) else Err(AttributeError)
    case Ok(false) =>
      var metadata := SelectMetadata(event, reader.metadataFields);
      match fetch(url)
      case Err(e) => Err(e)
      case Ok(docs) =>
        if docs == [] then Err(IndexError)
        else Ok(Some(Document(None, docs[0].content, metadata, None)))
  }

  /** What one line contributes: nothing for a blank or skipped line, the error of a line that raises, or one document. */
  function LineOutcome(reader: JsonlReader, line: string, io: Io): Result<Option<Document>>
  {
    if Strip(line) == [] then Ok(None)
    else match io.loads(line)
      case Err(e) => Err(e)
      case Ok(data) =>
        match LineEvent(data)
        case None => Ok(None)
        case Some(event) => EventOutcome(reader, event, io.fetch)
  }

  /**
   * The cases of one accepted event: a string index link yields nothing; a
   * document comes only from the fetch branch, from the first cleaned
   * document, with the selected fields as meta; the fetch branch succeeds
   * exactly when the fetch yields at least one document.
   */
  lemma EventOutcomeCases(reader: JsonlReader, event: Fields, fetch: Value -> Result<seq<Document>>)
    ensures var url, r := LinkOf(reader, event), EventOutcome(reader, event, fetch);
      && (IsIndexLink(url) == Ok(true) && url.Str? ==> r == Ok(None))
      && (r == Ok(None) ==> IsIndexLink(url) == Ok(true))
      && (IsIndexLink(url) == Ok(false) ==> (r.Ok? <==> fetch(url).Ok? && fetch(url).value != []))
      && (r.Ok? && r.value.Some? ==>
            && IsIndexLink(url) == Ok(false)
            && r.value.value == Document(None, fetch(url).value[0].content, SelectMetadata(event, reader.metadataFields), None))
  {
  }

  /** The cases of one line: a blank line adds nothing, a malformed one raises, a skipped shape adds nothing. */
  lemma LineOutcomeCases(reader: JsonlReader, line: string, io: Io)
    ensures var r := LineOutcome(reader, line, io);
      && (Strip(line) == [] ==> r == Ok(None))
      && (Strip(line) != [] && io.loads(line).Err? ==> r == Err(io.loads(line).error))
      && (Strip(line) != [] && io.loads(line).Ok? && LineEvent(io.loads(line).value).None? ==> r == Ok(None))
      && (Strip(line) != [] && io.loads(line).Ok? && LineEvent(io.loads(line).value).Some? ==>
            r == EventOutcome(reader, LineEvent(io.loads(line).value).value, io.fetch))
  {
  }

  /** What a line contributes to `documents`: nothing, one document, or the error that ends the run. */
  type LineStep = string -> Result<Option<Document>>

  /** The per-line step of a configured reader. */
  function Step(reader: JsonlReader, io: Io): LineStep {
    line => LineOutcome(reader, line, io)
  }

  /** `documents`, starting from `docs`, after the lines in order; the first line that raises ends the run. */
  function LinesDocuments(step: LineStep, docs: seq<Document>, lines: seq<string>): (r: Result<seq<Document>>)
    decreases |lines|
  {
    if lines == [] then Ok(docs)
    else match LinesDocuments(step, docs, lines[..|lines| - 1])
      case Err(e) => Err(e)
      case Ok(ds) =>
        match step(lines[|lines| - 1])
        case Err(e) => Err(e)
        case Ok(None) => Ok(ds)
        case Ok(Some(d)) => Ok(ds + [d])
  }

  /** The documents of one source on its own. */
  function SourceDocuments(reader: JsonlReader, source: Source, io: Io): (r: Result<seq<Document>>)
  {
    match ExtractContent(source, io)
    case Err(e) => Err(e)
    case Ok(content) => LinesDocuments(Step(reader, io), [], ContentLines(content))
  }

  /** The value of `run(sources)`: the sources in order, each one's lines in order. */
  function ReaderDocuments(reader: JsonlReader, sources: seq<Source>, io: Io): (r: Result<seq<Document>>)
    decreases |sources|
  {
    if sources == [] then Ok([])
    else match ReaderDocuments(reader, sources[..|sources| - 1], io)
      case Err(e) => Err(e)
      case Ok(ds) =>
        match ExtractContent(sources[|sources| - 1], io)
        case Err(e) => Err(e)
        case Ok(content) => LinesDocuments(Step(reader, io), ds, ContentLines(content))
  }

  /** The body of the inner loop for one line, as the code runs it. */
  method ReadLine(reader: JsonlReader, line: string, io: Io) returns (r: Result<Option<Document>>)
    ensures r == LineOutcome(reader, line, io)
  {
    if Strip(line) == [] {
      return Ok(None);
    }
    var parsed := io.loads(line);
    if parsed.Err? {
      return Err(parsed.error);
    }
    var data := parsed.value;
    if data.List? && |data.items| == 2 && data.items[1].Dict? {
      data := data.items[1];
    } else if !data.Dict? {
      return Ok(None);
    }
    r := ReadEvent(reader, data.fields, io.fetch);
  }

  /** The rest of the line's body once `data` is a dict: the link test, then the fetch. */
  method ReadEvent(reader: JsonlReader, data: Fields, fetch: Value -> Result<seq<Document>>) returns (r: Result<Option<Document>>)
    ensures r == EventOutcome(reader, data, fetch)
  {
    var url := LinkOf(reader, data);
    if Truthy(url) {
      var found := In(IndexSuffix, url);
      if found.Err? {
        return Err(found.error);
      }
      if found.value {
        if !url.Str? {
          return Err(AttributeError);
        }
        return Ok(None);
      }
    }
    var metadata := SelectMetadata(data, reader.metadataFields);
    var fetched := fetch(url);
    if fetched.Err? {
      return Err(fetched.error);
    }
    if fetched.value == [] {
      return Err(IndexError);
    }
    r := Ok(Some(Document(None, fetched.value[0].content, metadata, None)));
  }

  /** The inner loop of `run`: the lines of one source, appended to `documents`. */
  method ReadLines(reader: JsonlReader, lines: seq<string>, io: Io, documents: seq<Document>) returns (r: Result<seq<Document>>)
    ensures r == LinesDocuments(Step(reader, io), documents, lines)
  {
    ghost var step := Step(reader, io);
    var docs := documents;
    for j := 0 to |lines|
      invariant LinesDocuments(step, documents, lines[..j]) == Ok(docs)
    {
      var outcome := ReadLine(reader, lines[j], io);
      assert step(lines[j]) == outcome;
      LinesDocumentsNext(step, documents, lines, j, docs);
      match outcome
      case Err(e) =>
        LinesPrefixError(step, documents, lines, j + 1);
        return Err(e);
      case Ok(None) =>
      case Ok(Some(document)) =>
        docs := docs + [document];
    }
    assert lines[..|lines|] == lines;
    r := Ok(docs);
  }

  /** `JSONLReader.run`: the nested loops over sources and their lines, appending to one list. */
  method Run(reader: JsonlReader, sources: seq<Source>, io: Io) returns (r: Result<seq<Document>>)
    ensures r == ReaderDocuments(reader, sources, io)
  {
    var documents: seq<Document> := [];
    for i := 0 to |sources|
      invariant ReaderDocuments(reader, sources[..i], io) == Ok(documents)
    {
      ReaderDocumentsStep(reader, sources, i, io, documents);
      var content := ExtractContent(sources[i], io);
      if content.Err? {
        SourcesPrefixError(reader, sources, i + 1, io);
        return Err(content.error);
      }
      var lines := ContentLines(content.value);
      var read := ReadLines(reader, lines, io, documents);
      match read
      case Err(e) =>
        SourcesPrefixError(reader, sources, i + 1, io);
        return Err(e);
      case Ok(ds) =>
        documents := ds;
    }
    assert sources[..|sources|] == sources;
    r := Ok(documents);
  }

  /** One more source: its lines read after the documents so far, or the error of reading it. */
  lemma ReaderDocumentsStep(reader: JsonlReader, sources: seq<Source>, i: nat, io: Io, documents: seq<Document>)
    requires i < |sources| && ReaderDocuments(reader, sources[..i], io) == Ok(documents)
    ensures ReaderDocuments(reader, sources[..i + 1], io) == match ExtractContent(sources[i], io)
      case Err(e) => Err(e)
      case Ok(content) => LinesDocuments(Step(reader, io), documents, ContentLines(content))
  {
    assert sources[..i + 1][..i] == sources[..i] && sources[..i + 1][i] == sources[i];
  }

  /** One more line: the documents so far, extended by what the step makes of that line. */
  lemma LinesDocumentsNext(step: LineStep, docs: seq<Document>, lines: seq<string>, j: nat, ds: seq<Document>)
    requires j < |lines| && LinesDocuments(step, docs, lines[..j]) == Ok(ds)
    ensures LinesDocuments(step, docs, lines[..j + 1]) ==
      match step(lines[j])
      case Err(e) => Err(e)
      case Ok(None) => Ok(ds)
      case Ok(Some(d)) => Ok(ds + [d])
  {
    assert lines[..j + 1][..j] == lines[..j];
  }

  /** Once a prefix of the lines raises, all of them raise the same error. */
  lemma {:induction false} LinesPrefixError(step: LineStep, docs: seq<Document>, lines: seq<string>, n: nat)
    requires n <= |lines| && LinesDocuments(step, docs, lines[..n]).Err?
    ensures LinesDocuments(step, docs, lines) == LinesDocuments(step, docs, lines[..n])
    decreases |lines| - n
  {
    if n < |lines| {
      assert lines[..n + 1][..n] == lines[..n];
      LinesPrefixError(step, docs, lines, n + 1);
    } else {
      assert lines[..n] == lines;
    }
  }

  /** Once a prefix of the sources raises, the whole run raises the same error. */
  lemma {:induction false} SourcesPrefixError(reader: JsonlReader, sources: seq<Source>, n: nat, io: Io)
    requires n <= |sources| && ReaderDocuments(reader, sources[..n], io).Err?
    ensures ReaderDocuments(reader, sources, io) == ReaderDocuments(reader, sources[..n], io)
    decreases |sources| - n
  {
    if n < |sources| {
      assert sources[..n + 1][..n] == sources[..n];
      SourcesPrefixError(reader, sources, n + 1, io);
    } else {
      assert sources[..n] == sources;
    }
  }

  /** Reading lines after some documents only prepends those documents to what the lines yield on their own. */
  lemma {:induction false} LinesDocumentsFrom(step: LineStep, docs: seq<Document>, lines: seq<string>)
    ensures LinesDocuments(step, docs, lines).Err? <==> LinesDocuments(step, [], lines).Err?
    ensures LinesDocuments(step, docs, lines).Err? ==>
            LinesDocuments(step, docs, lines).error == LinesDocuments(step, [], lines).error
    ensures LinesDocuments(step, docs, lines).Ok? ==>
            LinesDocuments(step, docs, lines).value == docs + LinesDocuments(step, [], lines).value
    decreases |lines|
  {
    if lines != [] {
      var n := |lines| - 1;
      LinesDocumentsFrom(step, docs, lines[..n]);
      match LinesDocuments(step, [], lines[..n])
      case Err(_) =>
      case Ok(ds) =>
        match step(lines[n])
        case Err(_) =>
        case Ok(None) =>
        case Ok(Some(d)) =>
          assert (docs + ds) + [d] == docs + (ds + [d]);
    }
  }

  /**
   * Documents come out in source order, then line order: a run over the
   * sources so far and one more source yields the earlier documents followed
   * by that source's own, and fails exactly when one of the two fails.
   */
  lemma SourceOrder(reader: JsonlReader, sources: seq<Source>, source: Source, io: Io)
    ensures var all, before, last := ReaderDocuments(reader, sources + [source], io), ReaderDocuments(reader, sources, io), SourceDocuments(reader, source, io);
            && (all.Ok? <==> before.Ok? && last.Ok?)
            && (all.Ok? ==> all.value == before.value + last.value)
            && (before.Err? ==> all == before)
  {
    var s := sources + [source];
    assert s[..|s| - 1] == sources && s[|s| - 1] == source;
    if ReaderDocuments(reader, sources, io).Ok? && ExtractContent(source, io).Ok? {
      LinesDocumentsFrom(Step(reader, io), ReaderDocuments(reader, sources, io).value, ContentLines(ExtractContent(source, io).value));
    }
  }

  /** Lines keep their order too: reading `a` then `b` is reading `a + b`. */
  lemma {:induction false} LineOrder(step: LineStep, docs: seq<Document>, a: seq<string>, b: seq<string>)
    ensures LinesDocuments(step, docs, a + b) ==
            match LinesDocuments(step, docs, a)
            case Err(e) => Err(e)
            case Ok(ds) => LinesDocuments(step, ds, b)
    decreases |b|
  {
    if b == [] {
      assert a + b == a;
    } else {
      var n := |b| - 1;
      LineOrder(step, docs, a, b[..n]);
      assert (a + b)[..|a + b| - 1] == a + b[..n];
      assert (a + b)[|a + b| - 1] == b[n];
    }
  }

  /** Each line adds at most one document, so a source never yields more documents than it has lines. */
  lemma {:induction false} AtMostOnePerLine(step: LineStep, docs: seq<Document>, lines: seq<string>)
    ensures LinesDocuments(step, docs, lines).Ok? ==> |LinesDocuments(step, docs, lines).value| <= |docs| + |lines|
    decreases |lines|
  {
    if lines != [] {
      AtMostOnePerLine(step, docs, lines[..|lines| - 1]);
    }
  }

  /** A blank or whitespace-only line adds nothing, wherever it stands. */
  lemma BlankLineSkipped(reader: JsonlReader, docs: seq<Document>, lines: seq<string>, line: string, io: Io)
    requires Strip(line) == []
    ensures LinesDocuments(Step(reader, io), docs, lines + [line]) == LinesDocuments(Step(reader, io), docs, lines)
  {
    assert (lines + [line])[..|lines|] == lines;
  }

  /** A malformed line (one `json.loads` rejects) ends the run with its error, even after earlier documents. */
  lemma MalformedLineRaises(reader: JsonlReader, docs: seq<Document>, lines: seq<string>, line: string, io: Io)
    requires Strip(line) != [] && io.loads(line) == Err(JsonDecodeError)
    requires LinesDocuments(Step(reader, io), docs, lines).Ok?
    ensures LinesDocuments(Step(reader, io), docs, lines + [line]) == Err(JsonDecodeError)
  {
    assert (lines + [line])[..|lines|] == lines;
  }

  /**
   * A line whose link is a string containing `-index.html` adds no document
   * and its URL is never fetched, whatever the fetch would have returned.
   */
  lemma IndexLinkNotFetched(reader: JsonlReader, event: Fields, fetch1: Value -> Result<seq<Document>>, fetch2: Value -> Result<seq<Document>>)
    requires LinkOf(reader, event).Str? && Contains(LinkOf(reader, event).s, IndexSuffix)
    ensures EventOutcome(reader, event, fetch1) == EventOutcome(reader, event, fetch2) == Ok(None)
  {
  }

  /** An event with any other string link yields exactly one document, with meta = the listed fields it has. */
  lemma OneDocumentPerLink(reader: JsonlReader, event: Fields, fetch: Value -> Result<seq<Document>>, k: string)
    requires LinkOf(reader, event).Str? && !Contains(LinkOf(reader, event).s, IndexSuffix)
    requires fetch(LinkOf(reader, event)).Ok? && fetch(LinkOf(reader, event)).value != []
    ensures var r := EventOutcome(reader, event, fetch);
            && r.Ok? && r.value.Some?
            && r.value.value.content == fetch(LinkOf(reader, event)).value[0].content
            && Keys(r.value.value.meta) == set f | f in reader.metadataFields && HasKey(event, f)
            && (k in Keys(r.value.value.meta) ==> Get(r.value.value.meta, k) == Get(event, k))
  {
  }

  /**
   * The batch reader unwraps more than the list-accepting `safe_deserialize`
   * of the streaming pipelines: a two-element list with a dict second is
   * taken whatever its first element, where the decoder demands null or a
   * string there.
   */
  lemma UnwrapsAnyHead(fs: Fields)
    ensures LineEvent(List([Int(0), Dict(fs)])) == Some(fs)
    ensures Decoder.ListAccepting(Ok(List([Int(0), Dict(fs)]))) == None
  {
  }
}
