# Real-time RAG workshop dataflows, modelled in Dafny

The workshop builds retrieval-augmented-generation indexes from news and SEC
filings with Bytewax dataflows and Haystack pipelines. The Python code has
three kinds of logic of its own, and this project models all three:

- **Decoding and reshaping the stream.** Each JSON line goes through a
  `safe_deserialize`. The repository has six copies in two variants: a
  list-accepting one that unwraps `[key, event]` pairs, and an object-only
  one. Then come `parse_time`, the `tuple_map` lambdas, the window filter
  `find_duplicate_ids_in_window` and the `process_event` wrappers.
- **The document-building components.**
  - `BenzingaNews.run` and its `clean_text`.
  - `BezingaNews.run`.
  - The batch `JSONLReader.run` with `_extract_content`.
  - The Azure and streaming `JSONLReader.run` variants, with their URL
    rewrite, metadata selection and `document_to_dict`.
  - `flatten_meta`.
  - The document post-processing in `UnstructuredParser.run`: symbol
    extraction, cleaning, skipping and the shared `symbol` override.
- **The SEC ingestion and simulation connectors.**
  - `parse_atom`, the stateful `dedupe` and `enrich`.
  - The simulation source, whose partitions move a wake-up time one delay
    per batch.

Python values are the `Values.Value` datatype. A dict is a list of
`(key, value)` pairs in insertion order, because `flatten_meta` collisions
and `dict.update` depend on that order. An exception a step raises is an
`Err(Error)` value. Code that mutates state keeps that form:
- `parse_time`, the batch reader's nested loops, `BenzingaNews.run` (over an
  array it cleans in place), `_flatten` and `UnstructuredParser.run` are
  methods with loops, each proved against a function that specifies it.
- The `dedupe` state and the simulation partition are classes.

Everything outside the workshop's own code is either written out or a
parameter of the model:
- `strptime` and the datetime constructor are written out for the fixed
  timestamp format;
- `json.loads` is an input: each decoder takes its outcome, a decoded value
  or `JsonDecodeError`; `json.dumps` is a parameter;
- BeautifulSoup, `html.unescape`, the Haystack pipelines, the Unstructured
  client, `uuid4`, `requests` and the clock;
- for the batch reader, an `Io` record of those services.

## Model

| member | source | states |
|---|---|---|
| Decoder.Normalise | workshops/microsoft-unstructured-bytewax/pipelines/indexing-pipelines/rag_custom_pipeline.py:78-85 | The common tail of every copy. A kept dict is the event with `link` moved to `url`: `link` is gone, `url` holds the old `link` (overwriting an earlier `url`), and no other key changes. A kept str or list is the event itself. The event is kept exactly when it ends up with a `url` key and neither `in` nor `pop` raised; every kept result passes `"url" in` |
| Decoder.WrappedEvent | workshops/microsoft-unstructured-bytewax/pipelines/indexing-pipelines/rag_custom_pipeline.py:64-76 | The list-accepting shape check offers an event exactly for a decoded dict (itself) or a two-element list whose head is null or a str (its second element); malformed JSON and every other shape offer nothing |
| Decoder.ObjectEvent | workshops/pydata/window_dataflow.py:28-34 | The object-only shape check offers an event exactly when the decoded value is a dict, and then offers it unchanged |
| Decoder.ListAccepting | workshops/microsoft-unstructured-bytewax/pipelines/indexing-pipelines/rag_custom_pipeline.py:57-92 | The list-accepting `safe_deserialize`: None on malformed JSON; otherwise the common tail applied to the offered event; a kept value always came from a dict or a wrapper |
| Decoder.ObjectOnly | workshops/pydata/window_dataflow.py:24-50 | The object-only `safe_deserialize`: the common tail applied to a decoded dict, None for everything else; a kept value is always a dict |
| Decoder.VariantsAgreeOffWrappers | workshops/pydata/window_dataflow.py:24-50 | The two variants give the same answer on every input except a `[key, event]` wrapper, which the object-only variant always drops |
| Decoder.EmptyUrlKept | workshops/microsoft-unstructured-bytewax/pipelines/indexing-pipelines/rag_custom_pipeline.py:81-82 | Only the presence of `url` is checked: an event whose `url` is the empty string is kept by both variants |
| Decoder.WrapperUnwrapped | workshops/microsoft-unstructured-bytewax/pipelines/indexing-pipelines/rag_custom_pipeline.py:66-68 | A `[null, {link, id}]` wrapper yields its dict with `id` first and the former `link` moved last as `url` |
| Decoder.LinkOverwritesUrl | workshops/pydata/window_dataflow.py:36-37 | `link` overwrites an existing `url`: `url` keeps its position and takes the `link` value, and `link` disappears |
| Decoder.WrappedStringKept | workshops/microsoft-unstructured-bytewax/pipelines/indexing-pipelines/rag_custom_pipeline.py:66-68 | A wrapped string containing the text "url" passes the list-accepting variant as that bare string, because `in` on a str is a substring test |
| Decoder.WrappedListKept | workshops/microsoft-unstructured-bytewax/pipelines/indexing-pipelines/rag_custom_pipeline.py:66-68 | A wrapped list containing the str `"url"` passes the list-accepting variant as that bare list |
| Decoder.MissingUrlDropped | workshops/pydata/window_dataflow.py:39-43 | A dict with neither `link` nor `url` is dropped by both variants |
| RagCustomPipeline.SafeDeserialize | workshops/microsoft-unstructured-bytewax/pipelines/indexing-pipelines/rag_custom_pipeline.py:57-92 | This copy is the list-accepting variant: it satisfies the same shape-check-then-tail contract as `Decoder.ListAccepting` |
| KafkaMultipleSources.SafeDeserialize | workshops/microsoft-unstructured-bytewax/pipelines/indexing-pipelines/kafka_multiple_sources_dataflow.py:49-78 | This copy is the list-accepting variant: shape check then common tail |
| StreamDataflow.SafeDeserialize | workshops/aimakerspace-2024/stream-version/dataflow.py:32-65 | This copy is the list-accepting variant, with prints for logging: shape check then common tail |
| PydataDataflow.SafeDeserialize | workshops/pydata/dataflow.py:42-77 | This copy is the list-accepting variant: shape check then common tail |
| WindowDataflow.SafeDeserialize | workshops/pydata/window_dataflow.py:24-50 | This copy is the object-only variant: it keeps dicts only, with `link` moved to `url` |
| WindowingTypesIndexing.SafeDeserialize | workshops/pydata/windowing_types_indexing.py:34-59 | This copy is the object-only variant: it keeps dicts only, with `link` moved to `url` |
| Timestamps.ReplaceT | workshops/pydata/window_dataflow.py:59 | `re.sub("T", " ", s)` turns every `T` into a space and changes nothing else; the length is kept and no `T` remains |
| Timestamps.StripColonZ | workshops/pydata/window_dataflow.py:60 | `re.sub(r":*Z", "", s)` removes every `Z` and never lengthens the text; a text without `Z` is unchanged |
| Timestamps.StripColonZKeeps | workshops/pydata/window_dataflow.py:60 | The `:*Z` removal introduces no character that was not in the input |
| Timestamps.NormaliseStamp | workshops/pydata/window_dataflow.py:59-60 | The text handed to `strptime` contains neither `T` nor `Z` |
| Timestamps.ParseStamp | workshops/pydata/window_dataflow.py:61-69 | `strptime(s, "%Y-%m-%d %H:%M:%S")` and the UTC datetime: it succeeds exactly on a text of that fixed shape whose six fields form a valid date and time, and then yields the date-time made of those six fields |
| Timestamps.Convert | workshops/pydata/window_dataflow.py:59-69 | One key's conversion: a missing key raises KeyError, a value that is not a str raises TypeError, and a success is always a valid datetime |
| Timestamps.ParseTime | workshops/pydata/window_dataflow.py:52-71 | The loop over `created_at` and `updated_at`, overwriting each in turn, equals `ConvertAll` of the two keys: the first key that fails raises, otherwise both are replaced |
| Timestamps.ConvertAllOk | workshops/pydata/window_dataflow.py:57-69 | A conversion over distinct keys succeeds exactly when every listed key's old value converts |
| Timestamps.ConvertAllKeys | workshops/pydata/window_dataflow.py:63-69 | A successful conversion keeps the set of keys (given that a missing key cannot convert) and keeps distinct keys distinct |
| Timestamps.ConvertAllUnlisted | workshops/pydata/window_dataflow.py:57-69 | A successful conversion leaves every key it does not list with its old value |
| Timestamps.ConvertAllListed | workshops/pydata/window_dataflow.py:57-69 | After a successful conversion each listed key holds exactly what its old value converts to |
| Timestamps.ConvertAllErr | workshops/pydata/window_dataflow.py:57-69 | A failed conversion raises the error of the first listed key that fails, and every earlier key converted |
| Timestamps.ParseTimeValid | workshops/pydata/window_dataflow.py:57-69 | A successful `parse_time` means the key was present and now holds a valid UTC datetime |
| Timestamps.ParseTimeKeepsKeys | workshops/pydata/window_dataflow.py:52-71 | A successful `parse_time` changes values only, never the set of keys |
| Timestamps.LayoutNormalised | workshops/pydata/window_dataflow.py:59-60 | An ISO text `Y-M-DTH:M:S` with an optional fraction and a final `Z` normalises to the space-separated layout with that fraction |
| Timestamps.IsoRoundTrip | workshops/pydata/window_dataflow.py:52-71 | Every valid datetime written in ISO 8601 with `Z` is read back by `parse_time` as that same datetime |
| Timestamps.FractionalSecondsRejected | workshops/pydata/window_dataflow.py:60-61 | A timestamp with fractional seconds survives normalisation with its fraction, does not match the format, and raises ValueError |
| WindowDataflow.ParseTime | workshops/pydata/window_dataflow.py:52-71 | This file's `parse_time` is the shared conversion of `created_at` and `updated_at` |
| WindowingTypesIndexing.ParseTime | workshops/pydata/windowing_types_indexing.py:61-76 | This file's `parse_time` is the shared conversion of `created_at` and `updated_at` |
| Windowing.Project | workshops/pydata/window_dataflow.py:82-84 | The dict literal of selected keys succeeds exactly when every key is present, and otherwise raises KeyError. The result has exactly those keys, each with the event's value, distinct when the listed keys are |
| Windowing.KeyedProjection | workshops/pydata/window_dataflow.py:82-85 | The `tuple_map` lambda: KeyError unless `id` and every kept key are present; otherwise the key is `str(id)` and the value holds exactly the kept keys with the event's values |
| Windowing.KeyedTimesValid | workshops/pydata/window_dataflow.py:77-91 | After `parse_time` and `tuple_map`, a kept timestamp key holds a valid datetime, so the event clock reads `updated_at` from a real datetime |
| WindowDataflow.TupleMap | workshops/pydata/window_dataflow.py:79-86 | Succeeds exactly when `id`, `created_at`, `updated_at` and `headline` are present, else KeyError. The result is keyed by `str(id)` and holds exactly those three fields with the event's values |
| WindowDataflow.FindDuplicateIdsInWindow | workshops/pydata/window_dataflow.py:101-117 | A window is kept exactly when it holds more than one event; it is kept as its key and its events in window order, and the window id is dropped |
| WindowingTypesIndexing.TupleMap | workshops/pydata/windowing_types_indexing.py:156-165 | Succeeds exactly when `id`, `created_at`, `updated_at`, `headline` and `content` are present, else KeyError. The result is keyed by `str(id)` and holds exactly those four fields |
| WindowingTypesIndexing.FirstList | workshops/pydata/windowing_types_indexing.py:138-141 | The loop finds no list exactly when no item of the window data is a list |
| WindowingTypesIndexing.FirstListIsFirst | workshops/pydata/windowing_types_indexing.py:138-144 | The list the loop stops at is an item of the window data, and no earlier item is a list |
| WindowingTypesIndexing.ProcessEvent | workshops/pydata/windowing_types_indexing.py:132-147 | `process_event` equals the window outcome: only the first event of the first list is embedded, and no list, an empty list (IndexError) or any exception gives None |
| WindowingTypesIndexing.WindowPair | workshops/pydata/windowing_types_indexing.py:134-143 | On the `(window_id, events)` pair a window delivers, the first list the loop finds is the events |
| WindowingTypesIndexing.OnlyFirstEventEmbedded | workshops/pydata/windowing_types_indexing.py:141-144 | Two windows whose first events agree give the same result whatever follows, and an empty window gives None |
| WindowingTypesIndexing.FailingEventDropped | workshops/pydata/windowing_types_indexing.py:143-147 | A window led by an event that is not a dict, or that has no `content`, is answered None instead of stopping the flow |
| NewsSources.CleanValue | workshops/pydata/dataflow.py:89-90 | The `type(...) == str` test: a str stays a str, and every other value is left exactly as it was |
| NewsSources.CleanValueClean | workshops/pydata/dataflow.py:103-109 | With the component's `clean_text`, whatever the HTML, a cleaned value holds whitespace only as single spaces, none at either end |
| NewsSources.CleanedFields | workshops/pydata/dataflow.py:88-90 | The key loop leaves a source with as many entries as it had |
| NewsSources.CleanedFieldsAt | workshops/pydata/dataflow.py:88-90 | Entry by entry, the cleaned source has the same key at the same position, holding the cleaned value |
| NewsSources.CleanedFieldsKeys | workshops/pydata/dataflow.py:88-90 | Cleaning changes values only: the same key set, and distinct keys stay distinct |
| NewsSources.CleanedFieldsGet | workshops/pydata/dataflow.py:88-90 | A key is present after cleaning exactly when it was before, and holds the cleaned old value |
| NewsSources.CleanedFieldsClean | workshops/pydata/dataflow.py:88-90 | With `clean_text`, every value of a cleaned source is clean in the single-space sense |
| NewsSources.CleanSource | workshops/pydata/dataflow.py:88-90 | The in-place key loop yields exactly the entry-by-entry cleaning of the source |
| NewsSources.SourceDocumentCases | workshops/pydata/dataflow.py:86-99 | One source: a dict without `content` raises KeyError; a list raises what its key loop raises (IndexError or TypeError); any other non-dict raises TypeError; an empty cleaned `content` is skipped; otherwise one document whose meta is the whole cleaned source and whose content is its cleaned `content` |
| NewsSources.ListIndex | workshops/pydata/dataflow.py:89 | `source[key]` on a list of n items: an int or bool key in range (a negative one counting from the end) picks an item, an int out of range raises IndexError, any other key raises TypeError |
| NewsSources.ListWalkKeeps | workshops/pydata/dataflow.py:88-90 | The key loop over a list changes only str items, which stay strs |
| NewsSources.ListWalkOutcome | workshops/pydata/dataflow.py:88-90 | The key loop over a list always ends in an error: IndexError exactly when the first item that is not a valid index is an out-of-range int, TypeError otherwise |
| NewsSources.CleanListSource | workshops/pydata/dataflow.py:88-90 | The loop, run in place on a list source, leaves the list and raises the error that the key-loop specification gives |
| NewsSources.ListSourceOutOfRange | workshops/pydata/dataflow.py:86-90 | The source `[5, "url"]` raises IndexError at once and stays unchanged |
| NewsSources.ListSourceCleansThenRaises | workshops/pydata/dataflow.py:86-90 | The source `[1, text]` cleans its second item in place, then raises TypeError on the str key |
| NewsSources.CleanValueWords | workshops/pydata/dataflow.py:103-109 | `clean_text` on a str is the words of the extracted text joined by single spaces |
| NewsSources.RunSource | workshops/pydata/dataflow.py:86-99 | One pass of the outer loop leaves the source cleaned and yields that source's contribution |
| NewsSources.Run | workshops/pydata/dataflow.py:80-101 | `BenzingaNews.run` over the source array: the result is the run over the original sources. On success every source is left cleaned in place. On error each source is either untouched or cleaned |
| NewsSources.CleanAt | workshops/pydata/dataflow.py:87-89 | One pass of the inner loop cleans the string values of one source in place. It leaves the sources before it cleaned and those after it untouched, and returns what that source contributes to the run |
| NewsSources.NewsDocumentsStep | workshops/pydata/dataflow.py:85-99 | One more source extends the documents so far by what that source contributes, or ends the run with its error |
| NewsSources.PrefixError | workshops/pydata/dataflow.py:85-99 | Once a prefix of the sources raises, the whole run raises that same error |
| NewsSources.SourceDocumentOk | workshops/pydata/dataflow.py:86-92 | A source contributes without raising exactly when it is a dict with a `content` key |
| NewsSources.NewsDocumentsOk | workshops/pydata/dataflow.py:85-99 | A run succeeds exactly when every source is a dict with a `content` key |
| NewsSources.NewsDocumentsLast | workshops/pydata/dataflow.py:85-99 | A non-empty run succeeds exactly when the run without its last source succeeds and that source contributes |
| NewsSources.NewsDocumentsAppend | workshops/pydata/dataflow.py:85-99 | The run over `a + b` is the run over `a` followed by the run over `b`, and the first error wins |
| NewsSources.NewsDocumentsLastOk | workshops/pydata/dataflow.py:85-99 | A successful run's documents are those before the last source, then what the last source contributes |
| NewsSources.NewsDocumentsLength | workshops/pydata/dataflow.py:85-99 | No source yields more than one document |
| NewsSources.NewsDocumentsFromSources | workshops/pydata/dataflow.py:85-99 | Every document of a successful run is the contribution of one of its sources |
| NewsSources.NewsDocumentsHasSources | workshops/pydata/dataflow.py:85-99 | Every document a source contributes appears in the output of a successful run |
| NewsSources.DocumentContent | workshops/pydata/dataflow.py:92-97 | A document's content is never the empty string and is also kept in its meta under `content`. The meta has the source's keys, distinct when the source's were |
| NewsSources.DocumentClean | workshops/pydata/dataflow.py:88-109 | With `clean_text`, every str in a document's meta, and its content, holds single spaces only, none at either end |
| NewsSources.NewsDocumentsSingle | workshops/pydata/dataflow.py:143 | A run over the single source a dataflow step hands in gives that source's error, no document, or exactly its one document |
| PydataDataflow.ProcessEvent | workshops/pydata/dataflow.py:151-156 | A falsy event gives None. A truthy dict without `content` raises KeyError, a list raises its key loop's error, and any other truthy non-dict raises TypeError. Otherwise the news component yields at most one document, and the result is the downstream pipeline's output on it, or its error |
| PydataDataflow.WrappedListRaises | workshops/pydata/dataflow.py:42-77 | The line `[null, [5, "url"]]` passes the decoder as the list `[5, "url"]`, and processing it raises IndexError |
| PydataDataflow.DownstreamInput | workshops/pydata/dataflow.py:141-146 | For a dict event with `content`, the pipeline receives nothing when the cleaned content is empty, else one document whose meta is the whole cleaned event |
| PydataDataflow.WrappedStringRaises | workshops/pydata/dataflow.py:51-56 | A wrapped bare string that the decoder keeps then makes `process_event` raise TypeError, which nothing catches |
| Benzinga.CleanNewsShape | workshops/pydata/benzinga.py:40-41 | After unescaping, tag removal, strip and newline replacement, the text has no newline and no whitespace at either end, whatever the markup |
| Benzinga.EventText | workshops/pydata/benzinga.py:31-36 | The text an event is cleaned from. A non-dict raises AttributeError, and a missing `content` raises TypeError (`len(None)`). Content shorter than 20 characters is replaced by the `headline`. Content of at least 20 characters is used as it is |
| Benzinga.ContentOf | workshops/pydata/benzinga.py:31 | `news_event.get("content")`: the stored value, or None when the key is missing |
| Benzinga.Run | workshops/pydata/benzinga.py:25-49 | One document per event, in event order, returned as a plain list. It succeeds exactly when every event's document does. Otherwise it fails with the error of the first failing event |
| Benzinga.ShortContentUsesHeadline | workshops/pydata/benzinga.py:33-34 | Content shorter than 20 characters is replaced by the headline, which then becomes the text that is cleaned |
| Benzinga.MissingContentRaises | workshops/pydata/benzinga.py:31-33 | An event without `content` raises TypeError, because `len(None)` does |
| Benzinga.EventDocumentShape | workshops/pydata/benzinga.py:40-45 | An event yields a document exactly when its text can be taken, with the same error otherwise. The document's content is the cleaned text: no newline, no edge whitespace, no id, no meta, no embedding |
| Benzinga.RemoveTagsExample | workshops/pydata/benzinga.py:41 | `re.sub(r'<.*?>', '', ...)` removes a tag together with its brackets |
| Flatten.NewKey | workshops/microsoft-unstructured-bytewax/pipelines/indexing-pipelines/rag_custom_pipeline.py:47 | Under an empty parent a key keeps its name; under a non-empty parent `p` the key `k` becomes `p_k` |
| Flatten.Leaf | workshops/microsoft-unstructured-bytewax/pipelines/indexing-pipelines/rag_custom_pipeline.py:51 | A leaf's value is always a str, int, float or bool. Such a value is kept as it is, and anything else becomes its `str()` text |
| Flatten.Flatten | workshops/microsoft-unstructured-bytewax/pipelines/indexing-pipelines/rag_custom_pipeline.py:44-52 | `_flatten` as written (a loop extending a local list and recursing into nested dicts) equals `dict(items)` of the items its entries contribute, in order |
| Flatten.ItemsScalar | workshops/microsoft-unstructured-bytewax/pipelines/indexing-pipelines/rag_custom_pipeline.py:44-51 | The items list holds only scalar values: no dict, list or None survives |
| Flatten.FlattenScalar | workshops/microsoft-unstructured-bytewax/pipelines/indexing-pipelines/rag_custom_pipeline.py:44-52 | A flattened dict holds only str, int, float or bool values |
| Flatten.FlattenMetaScalar | workshops/microsoft-unstructured-bytewax/pipelines/indexing-pipelines/rag_custom_pipeline.py:37-54 | `flatten_meta` yields a flat dict: distinct keys, and only str, int, float or bool values |
| Flatten.FlattenKeys | workshops/microsoft-unstructured-bytewax/pipelines/indexing-pipelines/rag_custom_pipeline.py:44-52 | The key set of `_flatten(d, parent)` is exactly the keys its entries yield: a leaf yields its joined name, a nested dict its own flattened keys, and nothing else gives a key |
| Flatten.TopLevelKeyKept | workshops/microsoft-unstructured-bytewax/pipelines/indexing-pipelines/rag_custom_pipeline.py:47-51 | A top-level entry whose value is not a dict keeps its own name in the result |
| Flatten.NestedKeyJoined | workshops/microsoft-unstructured-bytewax/pipelines/indexing-pipelines/rag_custom_pipeline.py:47-49 | A leaf `k` in a dict nested under a non-empty top-level key `p` appears in the result as `p_k` |
| Flatten.EmptyNestedContributesNothing | workshops/microsoft-unstructured-bytewax/pipelines/indexing-pipelines/rag_custom_pipeline.py:48-49 | An empty nested dict contributes nothing: the flattened result is the same without it |
| Flatten.CollisionLastWins | workshops/microsoft-unstructured-bytewax/pipelines/indexing-pipelines/rag_custom_pipeline.py:52 | On a key collision the result holds the value of the last item produced for that key |
| Flatten.CollisionExample | workshops/microsoft-unstructured-bytewax/pipelines/indexing-pipelines/rag_custom_pipeline.py:47-52 | A nested `a.b` after a top-level `a_b` collides with it, and the nested value wins |
| Flatten.FlattenIdempotent | workshops/microsoft-unstructured-bytewax/pipelines/indexing-pipelines/rag_custom_pipeline.py:37-54 | `flatten_meta` is idempotent: flattening an already flattened dict gives it back unchanged |
| Reader.RewriteUrl | workshops/microsoft-unstructured-bytewax/pipelines/indexing-pipelines/rag_custom_pipeline.py:150-152 | A falsy URL passes unchanged, as does a str without `-index.html`. A str with it gets every occurrence replaced by `.txt`. A truthy non-container raises TypeError at `in`, and a list or dict holding the text raises AttributeError at `replace` |
| Reader.RewriteExample | workshops/microsoft-unstructured-bytewax/pipelines/indexing-pipelines/rag_custom_pipeline.py:151-152 | An EDGAR index link `...-index.html` is rewritten to the filing's full text `....txt` |
| Reader.RewriteStable | workshops/microsoft-unstructured-bytewax/pipelines/indexing-pipelines/rag_custom_pipeline.py:151-152 | Rewriting is stable: once a rewrite leaves no `-index.html`, rewriting again changes nothing |
| Reader.SelectMetadata | workshops/microsoft-unstructured-bytewax/pipelines/indexing-pipelines/rag_custom_pipeline.py:155 | The comprehension's dict holds exactly the listed fields the event has, each once, with the event's value |
| Reader.UrlOf | workshops/microsoft-unstructured-bytewax/pipelines/indexing-pipelines/rag_custom_pipeline.py:150 | `event.get("url")`: the event's `url` value, or None when it has none |
| Reader.EmbedDocument | workshops/microsoft-unstructured-bytewax/pipelines/indexing-pipelines/rag_custom_pipeline.py:149-171 | A non-dict event raises AttributeError; rewrite and pipeline errors propagate; an empty document list raises IndexError. A success takes id, content and embedding from the first embedded document. Its meta is the selected fields updated with the embedder's meta |
| Reader.EmbeddedMetadata | workshops/microsoft-unstructured-bytewax/pipelines/indexing-pipelines/rag_custom_pipeline.py:155-170 | The document's meta keys are exactly the selected fields the event has plus the embedder's meta keys. On a collision the embedder's value wins; every other selected field keeps the event's value |
| RagCustomPipeline.DocumentToDict | workshops/microsoft-unstructured-bytewax/pipelines/indexing-pipelines/rag_custom_pipeline.py:181-197 | `document_to_dict` gives exactly the keys `id`, `content`, `meta` and `vector`. `content` is the document's, `meta` is the JSON text of the flattened meta, and `vector` is the embedding list or None |
| RagCustomPipeline.Run | workshops/microsoft-unstructured-bytewax/pipelines/indexing-pipelines/rag_custom_pipeline.py:140-179 | `run` fails exactly when building the document fails. On success it returns exactly `document` (the converted dict) and `result` (what the upload returned for that dict) |
| RagCustomPipeline.UploadedMetaFlat | workshops/microsoft-unstructured-bytewax/pipelines/indexing-pipelines/rag_custom_pipeline.py:173-195 | Whatever the event and pipeline held, the meta handed to `json.dumps` is flat: distinct keys and only str, int, float or bool values |
| KafkaMultipleSources.DocumentToDict | workshops/microsoft-unstructured-bytewax/pipelines/indexing-pipelines/kafka_multiple_sources_dataflow.py:161-175 | `document_to_dict` gives exactly `id`, `content`, `meta` (the meta dict as it is, not flattened) and `vector` (the embedding list or None) |
| KafkaMultipleSources.ProcessEvent | workshops/microsoft-unstructured-bytewax/pipelines/indexing-pipelines/kafka_multiple_sources_dataflow.py:181-186 | A falsy event gives None. Otherwise the result succeeds exactly when the reader builds a document, and is that document converted by `document_to_dict` |
| KafkaMultipleSources.WrappedStringRaises | workshops/microsoft-unstructured-bytewax/pipelines/indexing-pipelines/kafka_multiple_sources_dataflow.py:52-54 | The decoder can keep a wrapped bare string, and `process_event` then raises AttributeError (a str has no `get`) instead of answering None |
| KafkaMultipleSources.DecodedEventReachesPipeline | workshops/microsoft-unstructured-bytewax/pipelines/indexing-pipelines/kafka_multiple_sources_dataflow.py:64-68 | Every dict the decoder keeps is truthy and has a `url`, and that is the URL `run` reads |
| StreamDataflow.Run | workshops/aimakerspace-2024/stream-version/dataflow.py:110-143 | A non-dict event raises AttributeError. The returned document never carries an embedding. Its id and content come from the first embedded document, and its meta is the merged metadata updated with that document's own meta |
| StreamDataflow.Merged | workshops/aimakerspace-2024/stream-version/dataflow.py:125-137 | Before the document's own meta: the selected fields the event has, plus the embedder's meta keys when the flag is set |
| StreamDataflow.MetadataPrecedence | workshops/aimakerspace-2024/stream-version/dataflow.py:125-142 | Metadata precedence: the first document's meta wins, then (with the flag) the embedder's meta, then the selected event fields |
| StreamDataflow.DocumentToDict | workshops/aimakerspace-2024/stream-version/dataflow.py:145-167 | `document_to_dict` gives distinct keys `id`, `content`, `meta`, plus `embedding` exactly when the flag is set; `meta` is the document's meta dict |
| StreamDataflow.EmbeddingAlwaysNone | workshops/aimakerspace-2024/stream-version/dataflow.py:133-158 | Even with the flag set, the emitted dict's `embedding` is None, because the document built with the embedding is replaced by one built without it |
| StreamDataflow.ProcessEvent | workshops/aimakerspace-2024/stream-version/dataflow.py:176-181 | A falsy event gives None. Otherwise it succeeds exactly when `run` does, and the emitted dict has no `embedding` key (the reader is built with the flag off) |
| RagPipelines.ExtractContent | workshops/aimakerspace-2024/batch-version/rag_pipelines.py:108-120 | `_extract_content`: a path is read as a file, a ByteStream is decoded as UTF-8, and any other source type raises ValueError |
| RagPipelines.ContentLines | workshops/aimakerspace-2024/batch-version/rag_pipelines.py:81 | `content.strip().split('\n')` gives at least one line, none containing a newline, and they join back to the stripped content |
| RagPipelines.LineEvent | workshops/aimakerspace-2024/batch-version/rag_pipelines.py:86-90 | A decoded line is taken when it is a dict (itself) or any two-element list whose second element is a dict (that dict). Every other shape is skipped |
| RagPipelines.LinkOf | workshops/aimakerspace-2024/batch-version/rag_pipelines.py:93 | `data.get(self.link_keyword)`: the value under the configured keyword, or None |
| RagPipelines.IsIndexLink | workshops/aimakerspace-2024/batch-version/rag_pipelines.py:94 | `url and '-index.html' in url`: false for a falsy URL, a substring test for a str, TypeError for a truthy value that is not a container |
| RagPipelines.EventOutcomeCases | workshops/aimakerspace-2024/batch-version/rag_pipelines.py:92-104 | A str index link takes the rewrite branch and yields no document, and only an index link yields nothing. Any other link succeeds exactly when the fetch gives at least one document. The document has the first cleaned document's content and the selected fields as meta |
| RagPipelines.LineOutcomeCases | workshops/aimakerspace-2024/batch-version/rag_pipelines.py:81-104 | A blank line adds nothing, and a line `json.loads` rejects raises its error. A skipped shape adds nothing, and an accepted event gives that event's outcome |
| RagPipelines.ReadLine | workshops/aimakerspace-2024/batch-version/rag_pipelines.py:82-104 | The inner loop body for one line computes exactly that line's outcome |
| RagPipelines.ReadEvent | workshops/aimakerspace-2024/batch-version/rag_pipelines.py:92-104 | The body after decoding computes exactly the event's outcome |
| RagPipelines.ReadLines | workshops/aimakerspace-2024/batch-version/rag_pipelines.py:81-104 | The inner loop appending to `documents` yields the documents of the lines in order, starting from those already collected |
| RagPipelines.Run | workshops/aimakerspace-2024/batch-version/rag_pipelines.py:70-106 | `JSONLReader.run` with its nested loops yields the reader's documents: sources in order, then each source's lines in order, and the first error ends the run |
| RagPipelines.ReaderDocumentsStep | workshops/aimakerspace-2024/batch-version/rag_pipelines.py:79-81 | One more source either raises while its content is extracted, or adds its lines' documents after the documents so far |
| RagPipelines.LinesDocumentsNext | workshops/aimakerspace-2024/batch-version/rag_pipelines.py:81-104 | One more line extends the documents so far by what the step makes of that line, or ends the run with its error |
| RagPipelines.LinesPrefixError | workshops/aimakerspace-2024/batch-version/rag_pipelines.py:81-104 | Once a prefix of the lines raises, all of them raise the same error |
| RagPipelines.SourcesPrefixError | workshops/aimakerspace-2024/batch-version/rag_pipelines.py:79-106 | Once a prefix of the sources raises, the whole run raises the same error |
| RagPipelines.LinesDocumentsFrom | workshops/aimakerspace-2024/batch-version/rag_pipelines.py:78-104 | Reading lines after earlier documents fails exactly when reading them alone fails, with the same error. On success it only prepends the earlier documents |
| RagPipelines.SourceOrder | workshops/aimakerspace-2024/batch-version/rag_pipelines.py:79-106 | Documents come out in source order: a run over one more source succeeds exactly when the earlier run and that source succeed, giving the earlier documents then the source's own. An earlier error wins |
| RagPipelines.LineOrder | workshops/aimakerspace-2024/batch-version/rag_pipelines.py:81-104 | Lines keep their order: reading `a + b` is reading `a`, then `b` after its documents |
| RagPipelines.AtMostOnePerLine | workshops/aimakerspace-2024/batch-version/rag_pipelines.py:81-104 | Each line adds at most one document |
| RagPipelines.BlankLineSkipped | workshops/aimakerspace-2024/batch-version/rag_pipelines.py:82 | A blank or whitespace-only line adds nothing, wherever it stands |
| RagPipelines.MalformedLineRaises | workshops/aimakerspace-2024/batch-version/rag_pipelines.py:83 | A line `json.loads` rejects ends the run with JSONDecodeError, even after earlier documents |
| RagPipelines.IndexLinkNotFetched | workshops/aimakerspace-2024/batch-version/rag_pipelines.py:94-97 | A str link containing `-index.html` yields no document and is never fetched, whatever the fetch would return |
| RagPipelines.OneDocumentPerLink | workshops/aimakerspace-2024/batch-version/rag_pipelines.py:97-104 | Any other str link whose fetch yields documents gives exactly one document. Its content is the first cleaned document's, and its meta has exactly the listed fields the event has, with the event's values |
| RagPipelines.UnwrapsAnyHead | workshops/aimakerspace-2024/batch-version/rag_pipelines.py:86-87 | The batch reader unwraps a two-element list whatever its head, where the streaming decoder drops a wrapper whose head is neither null nor a str |
| Text.NonSpaceRun | workshops/microsoft-unstructured-bytewax/pipelines/indexing-pipelines/unstructured_component.py:78 | A greedy `\S+` takes the longest prefix without whitespace: it stops at whitespace or at the end |
| UnstructuredComponent.FindSymbols | workshops/microsoft-unstructured-bytewax/pipelines/indexing-pipelines/unstructured_component.py:78 | Every symbol `re.findall` returns is a non-empty run without whitespace |
| UnstructuredComponent.NoTagNoSymbols | workshops/microsoft-unstructured-bytewax/pipelines/indexing-pipelines/unstructured_component.py:78-79 | Text without `<CLASS-CONTRACT-TICKER-SYMBOL>` yields no symbol, so `symbol` is not set |
| UnstructuredComponent.SymbolAfterTag | workshops/microsoft-unstructured-bytewax/pipelines/indexing-pipelines/unstructured_component.py:78 | A tag followed by a symbol and then whitespace (or the end) yields that symbol first, then the matches in the rest |
| UnstructuredComponent.CleanedText | workshops/microsoft-unstructured-bytewax/pipelines/indexing-pipelines/unstructured_component.py:47-53 | The cleaning substitution never lengthens the text and leaves only ASCII letters, digits, `-` and whitespace other than tab and newline |
| UnstructuredComponent.CleanedEmptyIffNothingKept | workshops/microsoft-unstructured-bytewax/pipelines/indexing-pipelines/unstructured_component.py:85-87 | For text without `<` or `&`, an element is skipped exactly when none of its characters is one the pattern keeps |
| UnstructuredComponent.CleanedExamples | workshops/microsoft-unstructured-bytewax/pipelines/indexing-pipelines/unstructured_component.py:85-87 | Markup alone and tab-newline runs clean to the empty string and are skipped; a lone space is kept, so such an element is not skipped |
| UnstructuredComponent.ElementMetaShape | workshops/microsoft-unstructured-bytewax/pipelines/indexing-pipelines/unstructured_component.py:75-90 | A kept element's meta has its own keys minus `orig_elements`, plus `source_url` (the source) and, when symbols matched, `symbol` (their comma-join). Every other key keeps its value, and keys stay distinct |
| UnstructuredComponent.Elements | workshops/microsoft-unstructured-bytewax/pipelines/indexing-pipelines/unstructured_component.py:81 | `set.update(list)` adds exactly the list's items |
| UnstructuredComponent.ElementStepCases | workshops/microsoft-unstructured-bytewax/pipelines/indexing-pipelines/unstructured_component.py:73-91 | Each element draws one id and adds its symbols to the set, whether or not it is kept. It adds one document, holding the original text, exactly when its cleaned text is not empty |
| UnstructuredComponent.ElementStepDocuments | workshops/microsoft-unstructured-bytewax/pipelines/indexing-pipelines/unstructured_component.py:80-91 | An element whose cleaned text is empty adds no document. Any other adds exactly one, appended last, with the original text, the next id and the rewritten metadata |
| UnstructuredComponent.WithSymbol | workshops/microsoft-unstructured-bytewax/pipelines/indexing-pipelines/unstructured_component.py:101 | Overwriting `symbol` keeps id, content and embedding, sets `symbol` to the shared string and changes no other key |
| UnstructuredComponent.Override | workshops/microsoft-unstructured-bytewax/pipelines/indexing-pipelines/unstructured_component.py:100-101 | Every document, in order, gets the same `symbol` string |
| UnstructuredComponent.ParseElement | workshops/microsoft-unstructured-bytewax/pipelines/indexing-pipelines/unstructured_component.py:73-91 | The inner loop body for one element computes exactly that element's step |
| UnstructuredComponent.ParseElements | workshops/microsoft-unstructured-bytewax/pipelines/indexing-pipelines/unstructured_component.py:73-91 | The inner loop over a partition's elements yields the state after those elements, in order |
| UnstructuredComponent.ParseSource | workshops/microsoft-unstructured-bytewax/pipelines/indexing-pipelines/unstructured_component.py:58-95 | One source: an unsuccessful or empty download contributes nothing, an `SDKError` is swallowed, any other exception propagates, and otherwise the partition's elements are processed |
| UnstructuredComponent.Enumerate | workshops/microsoft-unstructured-bytewax/pipelines/indexing-pipelines/unstructured_component.py:99 | Iterating a set lists each element exactly once, in an order the set does not fix |
| UnstructuredComponent.ShareSymbols | workshops/microsoft-unstructured-bytewax/pipelines/indexing-pipelines/unstructured_component.py:98-101 | The closing loop writes the same symbol string into every document |
| UnstructuredComponent.Run | workshops/microsoft-unstructured-bytewax/pipelines/indexing-pipelines/unstructured_component.py:39-103 | `run` raises the first non-SDK error. Otherwise, for some iteration order of the symbol set, the result is the first loop's documents with the comma-joined symbols written into each, if any symbol was found |
| UnstructuredComponent.SourcesPrefixError | workshops/microsoft-unstructured-bytewax/pipelines/indexing-pipelines/unstructured_component.py:58-95 | Once a prefix of the sources raises, the whole run raises the same error |
| UnstructuredComponent.InertSourceIgnored | workshops/microsoft-unstructured-bytewax/pipelines/indexing-pipelines/unstructured_component.py:59-60 | A source whose download fails or is empty, or whose partition raises `SDKError`, changes nothing: the run is the same as without it |
| UnstructuredComponent.ElementStepShaped | workshops/microsoft-unstructured-bytewax/pipelines/indexing-pipelines/unstructured_component.py:85-91 | One element only appends, at most one document, and keeps every document shaped: no `orig_elements`, a `source_url` naming a source, and text that does not clean to empty |
| UnstructuredComponent.ElementsStateShaped | workshops/microsoft-unstructured-bytewax/pipelines/indexing-pipelines/unstructured_component.py:73-91 | A partition's elements keep the documents shaped, only append, draw one id each and add at most one document each |
| UnstructuredComponent.SourcesStateShaped | workshops/microsoft-unstructured-bytewax/pipelines/indexing-pipelines/unstructured_component.py:58-95 | Every document the first loop keeps is shaped: no `orig_elements`, a `source_url` naming one of the sources, and text that does not clean to the empty string |
| UnstructuredComponent.FinishedDocuments | workshops/microsoft-unstructured-bytewax/pipelines/indexing-pipelines/unstructured_component.py:97-103 | The override changes only `symbol`: each returned document keeps its id, content and every other key. All carry the same joined symbols when any were found, and the documents are untouched otherwise |
| SecFilings.FilingId | workshops/microsoft-unstructured-bytewax/pipelines/ingestion-pipelines/sec_filings_ingestion.py:74 | The id is the dash-free form of the text after the last `=` of the entry's id text: a suffix without `=` that is the whole text or follows an `=`, with every `-` removed |
| SecFilings.FilingIdOf | workshops/microsoft-unstructured-bytewax/pipelines/ingestion-pipelines/sec_filings_ingestion.py:74 | For an id text `prefix=accession` whose accession has no `=`, the id is the accession with its dashes removed |
| SecFilings.DigitRun | workshops/microsoft-unstructured-bytewax/pipelines/ingestion-pipelines/sec_filings_ingestion.py:77 | `\d+` takes the longest prefix of ASCII digits |
| SecFilings.CikAt | workshops/microsoft-unstructured-bytewax/pipelines/ingestion-pipelines/sec_filings_ingestion.py:77 | A `\((\d+)\)` match at a position gives a non-empty string of digits |
| SecFilings.SearchCik | workshops/microsoft-unstructured-bytewax/pipelines/ingestion-pipelines/sec_filings_ingestion.py:77 | `re.search` from a position gives a non-empty string of digits when it matches |
| SecFilings.Cik | workshops/microsoft-unstructured-bytewax/pipelines/ingestion-pipelines/sec_filings_ingestion.py:77-78 | The CIK is either the text `No CIK found` or a non-empty string of digits |
| SecFilings.NoParenNoCik | workshops/microsoft-unstructured-bytewax/pipelines/ingestion-pipelines/sec_filings_ingestion.py:77-78 | A title without `(` has no match |
| SecFilings.CikAfterPlainText | workshops/microsoft-unstructured-bytewax/pipelines/ingestion-pipelines/sec_filings_ingestion.py:77-78 | The CIK is the digits of the first parenthesised number when nothing before it opens a parenthesis |
| SecFilings.RecordShape | workshops/microsoft-unstructured-bytewax/pipelines/ingestion-pipelines/sec_filings_ingestion.py:74-90 | Every record's id is free of `-` and `=`, its CIK is digits or the fallback text, and title, link and form type are the entry's texts |
| SecFilings.ParseAtom | workshops/microsoft-unstructured-bytewax/pipelines/ingestion-pipelines/sec_filings_ingestion.py:64-93 | `parse_atom` emits one `("All", record)` per entry, in feed order |
| SecFilings.Deduplicator.constructor | workshops/microsoft-unstructured-bytewax/pipelines/ingestion-pipelines/sec_filings_ingestion.py:101-102 | The dedupe state starts with no id seen |
| SecFilings.Deduplicator.Dedupe | workshops/microsoft-unstructured-bytewax/pipelines/ingestion-pipelines/sec_filings_ingestion.py:100-107 | A seen id gives None and leaves the state alone. A new id is appended to the state and the filing is passed on. Distinct seen ids stay distinct |
| SecFilings.Ids | workshops/microsoft-unstructured-bytewax/pipelines/ingestion-pipelines/sec_filings_ingestion.py:103 | The ids of the filings, position by position |
| SecFilings.FirstOccurrencesIds | workshops/microsoft-unstructured-bytewax/pipelines/ingestion-pipelines/sec_filings_ingestion.py:100-113 | The filings that survive `dedupe` and the `filter_map` carry each id of the stream exactly once |
| SecFilings.FirstOccurrencesAreFirst | workshops/microsoft-unstructured-bytewax/pipelines/ingestion-pipelines/sec_filings_ingestion.py:100-113 | Each surviving filing is the first filing in the stream with its id |
| SecFilings.DedupeStream | workshops/microsoft-unstructured-bytewax/pipelines/ingestion-pipelines/sec_filings_ingestion.py:100-113 | Running `dedupe` over the stream with one state (every key is "All") and dropping the Nones leaves exactly the first occurrence of each id, in order |
| SecFilings.ParseInt | workshops/microsoft-unstructured-bytewax/pipelines/ingestion-pipelines/sec_filings_ingestion.py:122 | `int(s)` succeeds exactly on a non-empty string of ASCII digits |
| SecFilings.ParseIntExample | workshops/microsoft-unstructured-bytewax/pipelines/ingestion-pipelines/sec_filings_ingestion.py:122 | Leading zeros do not change the value: `int("0320193")` is 320193 |
| SecFilings.ArchiveUrl | workshops/microsoft-unstructured-bytewax/pipelines/ingestion-pipelines/sec_filings_ingestion.py:131-139 | The fallback URL raises IndexError exactly when the link has fewer than eight `/`-separated parts |
| SecFilings.ArchiveUrlOfIndexLink | workshops/microsoft-unstructured-bytewax/pipelines/ingestion-pipelines/sec_filings_ingestion.py:131-139 | For an index link with six leading parts, the fallback URL names the same CIK and accession folder under the archive root, with `-index.htm` replaced by `.txt` in the file name |
| SecFilings.NoTagNoTicker | workshops/microsoft-unstructured-bytewax/pipelines/ingestion-pipelines/sec_filings_ingestion.py:155-161 | A response body without `<issuerTradingSymbol>` yields no ticker, so `enrich` gives None |
| SecFilings.TaggedSymbol | workshops/microsoft-unstructured-bytewax/pipelines/ingestion-pipelines/sec_filings_ingestion.py:155-162 | A body starting with a tagged symbol yields that symbol, whatever follows |
| SecFilings.EnrichCases | workshops/microsoft-unstructured-bytewax/pipelines/ingestion-pipelines/sec_filings_ingestion.py:121-173 | `enrich` case by case. A CIK that is not digits (including `No CIK found`) raises ValueError before the `try`. A table hit gives that ticker, and a non-insider form gets `no_ticker`. For insider forms, a short link raises IndexError, a non-200 status or a body without a symbol gives None, and a symbol gives `(symbol, filing)`. The filing is always passed on unchanged |
| SecFilings.HitNeedsNoFetch | workshops/microsoft-unstructured-bytewax/pipelines/ingestion-pipelines/sec_filings_ingestion.py:122-126 | A CIK found in the table never touches the network: any two fetchers give the same answer |
| CustomConnectors.SimulationPartition.constructor | workshops/microsoft-unstructured-bytewax/pipelines/indexing-pipelines/custom_connectors.py:21-25 | A new partition keeps its path, batch size, resume state and delay, and its wake-up time is the moment of construction |
| CustomConnectors.SimulationPartition.NextBatch | workshops/microsoft-unstructured-bytewax/pipelines/indexing-pipelines/custom_connectors.py:27-31 | Each batch moves the wake-up time one delay later (a zero delay moves nothing) and never earlier for a non-negative delay. The file partition's batch is returned unchanged |
| CustomConnectors.SimulationPartition.NextAwake | workshops/microsoft-unstructured-bytewax/pipelines/indexing-pipelines/custom_connectors.py:33-35 | `next_awake` reports the wake-up time and changes nothing |
| CustomConnectors.AwakeAfter | workshops/microsoft-unstructured-bytewax/pipelines/indexing-pipelines/custom_connectors.py:28-30 | The wake-up time after `n` batches: the start for no batches or a zero delay, and strictly later for a positive delay |
| CustomConnectors.AwakeAfterLinear | workshops/microsoft-unstructured-bytewax/pipelines/indexing-pipelines/custom_connectors.py:28-30 | The wake-up time moves linearly: after `n` batches it is `start + n * delay` |
| CustomConnectors.Poll | workshops/microsoft-unstructured-bytewax/pipelines/indexing-pipelines/custom_connectors.py:27-31 | Calling `next_batch` once per batch returns the batches unchanged and in order, and the wake-up time has moved one delay per batch |
| CustomConnectors.SplitFirst | workshops/microsoft-unstructured-bytewax/pipelines/indexing-pipelines/custom_connectors.py:73 | `split("::", 1)`: when it splits, the two parts rejoined with the separator give back the key |
| CustomConnectors.SplitFirstSpec | workshops/microsoft-unstructured-bytewax/pipelines/indexing-pipelines/custom_connectors.py:73 | The split fails exactly when the separator does not occur, and otherwise cuts at its first occurrence |
| CustomConnectors.PartKeyRoundTrip | workshops/microsoft-unstructured-bytewax/pipelines/indexing-pipelines/custom_connectors.py:73 | A partition key built from an id without `:` and a path splits back into that id and path |
| CustomConnectors.SimulationSource.constructor | workshops/microsoft-unstructured-bytewax/pipelines/indexing-pipelines/custom_connectors.py:40-67 | The source keeps its path, batch size and delay; the defaults are ten lines per batch and five seconds |
| CustomConnectors.SimulationSource.BuildPart | workshops/microsoft-unstructured-bytewax/pipelines/indexing-pipelines/custom_connectors.py:69-75 | A key without `::` raises ValueError, and a key for another file fails the assertion. Otherwise a fresh partition is returned for this source's file, batch size and delay, awake at the current time, with the given resume state |
| Text.Strip | workshops/aimakerspace-2024/batch-version/rag_pipelines.py:81 | `str.strip()` never lengthens the text and leaves no whitespace at either end |
| Text.StripEmptyIffAllSpace | workshops/aimakerspace-2024/batch-version/rag_pipelines.py:82 | `if line.strip():` is false exactly for a line made only of whitespace |
| Text.Split | workshops/aimakerspace-2024/batch-version/rag_pipelines.py:81 | `s.split(c)` gives at least one part, none containing `c`, and the parts joined with `c` give back `s` |
| Text.SplitJoin | workshops/microsoft-unstructured-bytewax/pipelines/ingestion-pipelines/sec_filings_ingestion.py:131 | Splitting undoes joining: parts free of `/` joined with `/` split back into themselves |
| Text.AfterLast | workshops/microsoft-unstructured-bytewax/pipelines/ingestion-pipelines/sec_filings_ingestion.py:74 | `split("=")[-1]` is a suffix of the text that contains no `=`; either it is the whole text or the character just before it is `=` |
| Text.AfterLastOf | workshops/microsoft-unstructured-bytewax/pipelines/ingestion-pipelines/sec_filings_ingestion.py:74 | For a text ending in `=` followed by a tail without `=`, the last piece is exactly that tail |
| Text.RemoveChar | workshops/microsoft-unstructured-bytewax/pipelines/ingestion-pipelines/sec_filings_ingestion.py:74 | `replace("-", "")` is a filter: the result holds no dash, every other character keeps its count, and a text without a dash is unchanged |
| Text.RemoveCharAppend | workshops/microsoft-unstructured-bytewax/pipelines/ingestion-pipelines/sec_filings_ingestion.py:74 | Removing a character distributes over concatenation, so the order of the kept characters is that of the text |
| Text.IndexOfSpec | workshops/microsoft-unstructured-bytewax/pipelines/indexing-pipelines/custom_connectors.py:73 | The search finds the leftmost occurrence of the separator, and finds nothing only when there is none |
| Text.ReplaceAllAbsent | workshops/microsoft-unstructured-bytewax/pipelines/indexing-pipelines/rag_custom_pipeline.py:152 | `replace` on a text without the pattern leaves it unchanged |
| Text.CollapseSpace | workshops/pydata/dataflow.py:108 | `re.sub(r'\s+', ' ', text)` leaves whitespace only as single spaces, empties only the empty text, and keeps whether the text starts with whitespace |
| Text.CollapseSpaceSingle | workshops/pydata/dataflow.py:108 | After `re.sub(r'\s+', ' ', text)` no two whitespace characters are adjacent and the only whitespace left is a space |
| Text.CollapseSpaceKeeps | workshops/pydata/dataflow.py:108 | The substitution keeps every non-whitespace character, in order: dropping whitespace from its result gives the text with its whitespace dropped |
| Text.CollapseWords | workshops/pydata/dataflow.py:108 | The substitution is the text's words (`split()`) joined by single spaces, with one space in front when the text starts with whitespace and one behind when it ends with whitespace after a word |
| Text.NormaliseSpace | workshops/pydata/dataflow.py:108 | After the substitution and `.strip()`, whitespace appears only as single spaces, none at either end |
| Text.NormaliseSpaceWords | workshops/pydata/dataflow.py:108 | `re.sub(r'\s+', ' ', text).strip()` equals `' '.join(text.split())`: the words of the text, in order, joined by single spaces |
| Text.WordsAreWords | workshops/pydata/dataflow.py:108 | Every part of `text.split()` is a non-empty run without whitespace |
| Text.NormaliseSpaceKeeps | workshops/pydata/dataflow.py:108 | The cleaning keeps every non-whitespace character in order and only removes or rewrites whitespace |
| Text.RemoveTags | workshops/pydata/benzinga.py:41 | `re.sub(r'<.*?>', '', s)` never lengthens the text, changes nothing in text without `<`, leaves no `<` followed by a `>` on the same line, and keeps a line that had no `>` |
| Text.TagEndNone | workshops/pydata/benzinga.py:41 | The lazy `.*?>` fails to close a tag exactly when no `>` comes before the end of the line |
| Text.RemoveTagsPlain | workshops/pydata/benzinga.py:41 | Text before the first `<` is kept as it is, and the rest is processed on its own |
| Text.RemoveTagsSpan | workshops/pydata/benzinga.py:41 | A `<...>` span on one line with no `>` inside it is removed whole, and processing goes on after it |
| Text.RemoveTagsFixed | workshops/pydata/benzinga.py:41 | Text in which no tag can match is left unchanged |
| Text.RemoveTagsIdempotent | workshops/pydata/benzinga.py:41 | Removing tags twice gives the same text as removing them once |
| Text.NewlinesToSpaces | workshops/pydata/benzinga.py:41 | `replace("\n", " ")` keeps the length, turns every newline into a space, and changes nothing else |
| Values.Get | workshops/microsoft-unstructured-bytewax/pipelines/indexing-pipelines/rag_custom_pipeline.py:150 | `d.get(k)` finds a value exactly when the key is present, and that value is the one stored under it |
| Values.Set | workshops/microsoft-unstructured-bytewax/pipelines/indexing-pipelines/rag_custom_pipeline.py:79 | `d[k] = v` adds `k` to the keys, makes `k` read `v`, leaves every other key's value unchanged and keeps keys distinct |
| Values.Pop | workshops/microsoft-unstructured-bytewax/pipelines/indexing-pipelines/unstructured_component.py:89 | `d.pop(k, None)` removes `k` and nothing else: every other key keeps its value, and keys stay distinct |
| Values.Update | workshops/microsoft-unstructured-bytewax/pipelines/indexing-pipelines/rag_custom_pipeline.py:170 | `d.update(other)` gives the union of the keys. A key of `other` reads the last value `other` gives it, and every other key keeps `d`'s value |
| Values.FromItems | workshops/microsoft-unstructured-bytewax/pipelines/indexing-pipelines/rag_custom_pipeline.py:52 | `dict(items)` has distinct keys, the same key set as the items, and for each key the value of the last pair with that key |
| Values.FromItemsDistinct | workshops/microsoft-unstructured-bytewax/pipelines/indexing-pipelines/rag_custom_pipeline.py:52 | `dict(items)` of a list without repeated keys is that list unchanged |
| Values.In | workshops/microsoft-unstructured-bytewax/pipelines/indexing-pipelines/rag_custom_pipeline.py:78 | `needle in v` is a key test on a dict, a substring test on a str and an element test on a list, and raises TypeError on any other value |
| Values.Len | workshops/pydata/benzinga.py:33 | `len(v)` is the length of a str, the number of items of a list and the number of keys of a dict, and raises TypeError on every other value |

## Left out

- Timestamps.ParseStamp: accepts only the fixed-width layout `YYYY-MM-DD HH:MM:SS`. `strptime` also takes fields without zero padding and leading whitespace. Benzinga timestamps are always zero-padded, so the round trip and the rejection of fractional seconds are stated for that layout.
- SecFilings.ParseInt: `int()` on the CIK text is modelled on the texts a CIK can hold (digits or `No CIK found`). Surrounding whitespace, a sign, underscores and non-ASCII digits, which `int()` also accepts, are treated as errors.
- SecFilings.DigitRun: `\d` is modelled as the ASCII digits. In a Python `str` pattern it also matches other Unicode decimal digits.
- SecFilings.Enrich: the ticker table is a `map<int, string>`. When one CIK has several rows, pandas returns a Series; the source evaluates `ticker.iloc[0]` and discards it, so the pair then holds the Series. The model gives one ticker per CIK.
- SecFilings.Enrich: `requests.get` is a total `fetch` returning a status and a body. Connection errors and timeouts, which `requests` raises and `enrich` does not catch, are not modelled.
- SecFilings.ArchiveUrl: on a feed link ending in `-index.html`, the `.replace("-index.htm", ".txt")` would give a name ending in `.txtl`. The model does the same replacement, and the lemma about it is stated for `-index.htm` links, the form EDGAR feeds use.
- UnstructuredComponent.Run: `','.join(all_symbols)` iterates a set, whose order Python does not fix. The result is stated for some enumeration of the symbol set, not a particular one.
- UnstructuredComponent.Run: `run` returns `{"documents": documents}`; the model returns the list. `download_file` (lines 106-126) is the `download` service, which answers None on any failure. `UnstructuredClient.general.partition` with `dict_to_elements` is the `partition` service, and `uuid4` is the `uuid` service indexed by the number of ids drawn.
- NewsSources.Run: takes the per-string cleaner as a parameter. The properties of the component's own `clean_text` (BeautifulSoup's `get_text`, then whitespace collapsing and strip) are proved by the lemmas that instantiate it. BeautifulSoup itself is the `getText` parameter.
- Benzinga.Run: `html.unescape` is a parameter. The model treats `benzinga.py` as importable, although it never imports `Path`, which the annotation of `_extract_content` names. That `_extract_content` is the same code as the batch reader's and is modelled by `RagPipelines.ExtractContent`.
- RagCustomPipeline.Run: `json.dumps` and `write_to_ai_search` (lines 199-228: the HTTP upload to Azure AI Search and its status text) are parameters. NumPy's `tolist()` is not modelled; embeddings are already lists.
- Reader.EmbedDocument: the Haystack pipeline (Unstructured parser, `DocumentCleaner` with its regex, Azure OpenAI embedder) is one function from a URL to the embedder's output or an error. Its inner behaviour is out of scope.
- `json.loads` is not modelled as a parser. The decoders take its outcome: a decoded value, or `JsonDecodeError`.
- XML parsing in `parse_atom`, namely `ET.fromstring` and the `find` calls, is abstracted: each entry is given as its four texts. A missing element, which raises AttributeError in the source, is not modelled.
- The Bytewax wiring is not modelled: inputs, `map`/`filter_map`/`flat_map`/`stateful_map` plumbing, the Kafka sources and sinks, event clocks and windowers, `merge`, and the output sinks. Stateful dedupe is modelled for the single key "All" that every record carries. The wiring in `kafka_multiple_sources_dataflow.py` (lines 188-199) names an `edgar_input` it never defines.
- `SECSource` polling (the top of `sec_filings_ingestion.py`) and `serialize`/`serialize_k` are outside the modelled core.
- `build_indexing_pipeline` and `build_retriever_pipeline` (`rag_pipelines.py` lines 122-186) are pipeline construction only, with nothing to state.
- `_AzureSearchPartition` and `AzureSearchSink` (`custom_connectors.py` lines 77-125) are an HTTP write path. `_get_path_dev` reads the filesystem.
- `_FileSourcePartition`, the file reader the simulation partition inherits, is not part of this model. Each batch it yields is an input to `NextBatch`, and `resume_state` is only carried.
- CustomConnectors.SimulationPartition.constructor: `datetime.now(timezone.utc)` is the `now` parameter. Times are whole microseconds, with no bound on the datetime range.
- Logging, `print`, `pipeline.draw` and environment-variable loading are left out.

One comment and the code differ, and the model follows the code: the
simulation source's docstring (`custom_connectors.py` line 54) gives a
one-second default delay, while the default in the signature (line 44), and the
model's, is five seconds.
