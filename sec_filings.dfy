/**
 * The EDGAR ingestion dataflow. `parse_atom` turns the entries of the
 * "current filings" Atom feed into filing records. `dedupe` keeps a list of
 * the ids seen so far and drops repeats. `enrich` looks up the filer's
 * ticker in a table; for insider forms it falls back to the ticker written
 * in the filing's own text.
 *
 * Four things are inputs. XML parsing gives an entry's four text fields.
 * The ticker table (a pandas frame read from `company_tickers.json`) is a
 * map from CIK to ticker. The HTTP request of the fallback is a function
 * from URL to `(status, body)`. The Bytewax operators are the loops that
 * apply the per-item functions.
 */
module SecFilings {
  import opened Text
  import opened Values

  /** The texts `parse_atom` reads from one `<entry>`: `id`, `title`, the html `link`'s href and the `category` term. */
  datatype AtomEntry = AtomEntry(id: string, title: string, link: string, term: string)

  /** The record emitted per entry: the dict with keys `id`, `title`, `link`, `cik`, `form_type`. */
  datatype Filing = Filing(id: string, title: string, link: string, cik: string, formType: string)

  const StreamKey: string := "All"
  const NoCik: string := "No CIK found"

  /**
   * `text.split("=")[-1].replace("-", "")`: the accession number after the
   * last `=`, without dashes. The id is the text from position `k` on with
   * its dashes removed, where `k` is just past the last `=`, or 0 when
   * there is none.
   */
  function FilingId(idText: string): (r: string)
    ensures '-' !in r && '=' !in r
    ensures exists k :: 0 <= k <= |idText| && '=' !in idText[k..] && (k == 0 || idText[k - 1] == '=')
                        && r == RemoveChar(idText[k..], '-')
  {
    var tail := AfterLast(idText, '=');
    var k := |idText| - |tail|;
    assert tail == idText[k..];
    assert multiset(RemoveChar(tail, '-'))['='] == 0;
    RemoveChar(tail, '-')
  }

  /** An Atom id `...=0001234567-24-000001` gives the accession number's digits. */
  lemma FilingIdOf(prefix: string, accession: string)
    requires '=' !in accession
    ensures FilingId(prefix + "=" + accession) == RemoveChar(accession, '-')
  {
    AfterLastOf(prefix, '=', accession);
  }

  /** The longest prefix of ASCII digits. */
  function DigitRun(s: string): (r: string)
    ensures |r| <= |s| && r == s[..|r|]
    ensures forall i :: 0 <= i < |r| ==> IsDigit(r[i])
    ensures |r| == |s| || !IsDigit(s[|r|])
  {
    if s == [] || !IsDigit(s[0]) then [] else [s[0]] + DigitRun(s[1..])
  }

  /** A match of `\((\d+)\)` starting at `i`: its digits. */
  function CikAt(title: string, i: nat): (r: Option<string>)
    requires i <= |title|
    ensures r.Some? ==> r.value != [] && forall k :: 0 <= k < |r.value| ==> IsDigit(r.value[k])
  {
    if i < |title| && title[i] == '(' then
      var digits := DigitRun(title[i + 1..]);
      if digits != [] && i + 1 + |digits| < |title| && title[i + 1 + |digits|] == ')' then Some(digits) else None
    else None
  }

  /** `re.search(r"\((\d+)\)", title)` from position `i`: the leftmost match. */
  function SearchCik(title: string, i: nat): (r: Option<string>)
    requires i <= |title|
    ensures r.Some? ==> r.value != [] && forall k :: 0 <= k < |r.value| ==> IsDigit(r.value[k])
    decreases |title| - i
  {
    if i == |title| then None
    else match CikAt(title, i)
      case Some(digits) => Some(digits)
      case None => SearchCik(title, i + 1)
  }

  /** The CIK of a filing: the digits of the first parenthesised number in the title, else the text "No CIK found". */
  function Cik(title: string): (r: string)
    ensures r == NoCik || (r != [] && forall i :: 0 <= i < |r| ==> IsDigit(r[i]))
  {
    match SearchCik(title, 0)
    case Some(digits) => digits
    case None => NoCik
  }

  /** A title without `(` has no CIK. */
  lemma {:induction false} NoParenNoCik(title: string, i: nat)
    requires i <= |title| && '(' !in title
    ensures SearchCik(title, i) == None
    decreases |title| - i
  {
    if i < |title| {
      NoParenNoCik(title, i + 1);
    }
  }

  /** The first parenthesised run of digits is the CIK when nothing before it opens a parenthesis. */
  lemma CikAfterPlainText(prefix: string, digits: string, rest: string)
    requires '(' !in prefix
    requires digits != [] && forall i :: 0 <= i < |digits| ==> IsDigit(digits[i])
    ensures Cik(prefix + "(" + digits + ")" + rest) == digits
  {
    var title := prefix + "(" + digits + ")" + rest;
    assert title[|prefix| + 1..] == digits + (")" + rest);
    DigitRunPrefix(digits, ")" + rest);
    assert DigitRun(title[|prefix| + 1..]) == digits;
    assert title[|prefix|] == '(';
    assert title[|prefix| + 1 + |digits|] == ')';
    assert CikAt(title, |prefix|) == Some(digits);
    SearchCikSkips(title, |prefix|, 0);
  }

  /** A digit run followed by a non-digit is taken whole. */
  lemma {:induction false} DigitRunPrefix(digits: string, rest: string)
    requires forall i :: 0 <= i < |digits| ==> IsDigit(digits[i])
    requires rest == [] || !IsDigit(rest[0])
    ensures DigitRun(digits + rest) == digits
    decreases |digits|
  {
    if digits == [] {
      assert digits + rest == rest;
    } else {
      assert (digits + rest)[1..] == digits[1..] + rest;
      DigitRunPrefix(digits[1..], rest);
    }
  }

  /** The search passes over positions without `(`. */
  lemma {:induction false} SearchCikSkips(title: string, k: nat, i: nat)
    requires i <= k < |title|
    requires forall j :: i <= j < k ==> title[j] != '('
    ensures SearchCik(title, i) == SearchCik(title, k)
    decreases k - i
  {
    if i < k {
      SearchCikSkips(title, k, i + 1);
    }
  }

  /** The record of one entry. */
  function Record(entry: AtomEntry): (r: Filing) {
    Filing(FilingId(entry.id), entry.title, entry.link, Cik(entry.title), entry.term)
  }

  /** Every record's id is free of `-` and `=`, its CIK is digits or the fallback, and the other fields are the entry's texts. */
  lemma RecordShape(entry: AtomEntry)
    ensures var r := Record(entry);
      && '-' !in r.id && '=' !in r.id
      && (r.cik == NoCik || (r.cik != [] && forall i :: 0 <= i < |r.cik| ==> IsDigit(r.cik[i])))
      && r.title == entry.title && r.link == entry.link && r.formType == entry.term
  {
  }

  /** `parse_atom`: one `("All", record)` per entry, in feed order. */
  method ParseAtom(entries: seq<AtomEntry>) returns (data: seq<(string, Filing)>)
    ensures |data| == |entries|
    ensures forall i :: 0 <= i < |entries| ==> data[i] == (StreamKey, Record(entries[i]))
  {
    data := [];
    for i := 0 to |entries|
      invariant |data| == i
      invariant forall j :: 0 <= j < i ==> data[j] == (StreamKey, Record(entries[j]))
    {
      var entry := entries[i];
      var id := FilingId(entry.id);
      var cik := Cik(entry.title);
      var filing := Filing(id, entry.title, entry.link, cik, entry.term);
      assert filing == Record(entry);
      data := data + [(StreamKey, filing)];
    }
  }

  /** No id occurs twice. */
  predicate Distinct(ids: seq<string>) {
    forall i, j :: 0 <= i < j < |ids| ==> ids[i] != ids[j]
  }

  /** The state of `dedupe` for the single key "All": the ids seen, in first-seen order. */
  class Deduplicator {
    var seen: seq<string>

    /** Bytewax starts the state absent, which `if not filings: filings = []` turns into an empty list. */
    constructor ()
      ensures seen == []
    {
      seen := [];
    }

    /** `dedupe(filings, filing)`: a new id is appended and the filing passed on; a seen id is dropped. */
    method Dedupe(filing: Filing) returns (r: Option<Filing>)
      modifies this
      ensures filing.id in old(seen) ==> seen == old(seen) && r == None
      ensures filing.id !in old(seen) ==> seen == old(seen) + [filing.id] && r == Some(filing)
      ensures Distinct(old(seen)) ==> Distinct(seen)
    {
      if filing.id in seen {
        return None;
      }
      seen := seen + [filing.id];
      r := Some(filing);
    }
  }

  /** The ids of some filings, in order. */
  function Ids(fs: seq<Filing>): (r: seq<string>)
    ensures |r| == |fs| && forall i :: 0 <= i < |fs| ==> r[i] == fs[i].id
  {
    if fs == [] then [] else Ids(fs[..|fs| - 1]) + [fs[|fs| - 1].id]
  }

  /** The filings that survive `dedupe` and the `filter_map` after it: each one whose id did not occur earlier. */
  function FirstOccurrences(fs: seq<Filing>): (r: seq<Filing>)
    decreases |fs|
  {
    if fs == [] then []
    else
      var n := |fs| - 1;
      if fs[n].id in Ids(fs[..n]) then FirstOccurrences(fs[..n]) else FirstOccurrences(fs[..n]) + [fs[n]]
  }

  /** The surviving filings carry the same ids as the whole stream, each exactly once. */
  lemma {:induction false} FirstOccurrencesIds(fs: seq<Filing>)
    ensures Distinct(Ids(FirstOccurrences(fs)))
    ensures forall x :: x in Ids(FirstOccurrences(fs)) <==> x in Ids(fs)
    decreases |fs|
  {
    if fs != [] {
      var n := |fs| - 1;
      FirstOccurrencesIds(fs[..n]);
      assert Ids(fs) == Ids(fs[..n]) + [fs[n].id];
      var p := FirstOccurrences(fs[..n]);
      if fs[n].id !in Ids(fs[..n]) {
        assert Ids(p + [fs[n]]) == Ids(p) + [fs[n].id];
      }
    }
  }

  /** Each surviving filing is the first one in the stream with its id. */
  lemma {:induction false} FirstOccurrencesAreFirst(fs: seq<Filing>, k: nat)
    requires k < |FirstOccurrences(fs)|
    ensures exists i :: 0 <= i < |fs| && FirstOccurrences(fs)[k] == fs[i] && forall j :: 0 <= j < i ==> fs[j].id != fs[i].id
    decreases |fs|
  {
    var n := |fs| - 1;
    var pre := fs[..n];
    var p := FirstOccurrences(pre);
    assert FirstOccurrences(fs) == if fs[n].id in Ids(pre) then p else p + [fs[n]];
    if k < |p| {
      FirstOccurrencesAreFirst(pre, k);
      var i :| 0 <= i < |pre| && p[k] == pre[i] && forall j :: 0 <= j < i ==> pre[j].id != pre[i].id;
      assert FirstOccurrences(fs)[k] == p[k];
      assert pre[i] == fs[i];
      forall j | 0 <= j < i ensures fs[j].id != fs[i].id {
        assert pre[j] == fs[j];
      }
    } else {
      assert fs[n].id !in Ids(fs[..n]);
      assert FirstOccurrences(fs)[k] == fs[n];
      forall j | 0 <= j < n ensures fs[j].id != fs[n].id {
        assert Ids(fs[..n])[j] == fs[j].id;
      }
    }
  }

  /**
   * The dedupe stage over the whole stream: every record has the key "All",
   * so one state sees them all, and `filter_map` drops the `None`s.
   */
  method DedupeStream(filings: seq<Filing>) returns (out: seq<Filing>)
    ensures out == FirstOccurrences(filings)
  {
    var state := new Deduplicator();
    out := [];
    for i := 0 to |filings|
      invariant out == FirstOccurrences(filings[..i])
      invariant state.seen == Ids(out)
    {
      assert filings[..i + 1][..i] == filings[..i];
      FirstOccurrencesIds(filings[..i]);
      var kept := state.Dedupe(filings[i]);
      if kept.Some? {
        assert Ids(out + [filings[i]]) == Ids(out) + [filings[i].id];
        out := out + [filings[i]];
      }
    }
    assert filings[..|filings|] == filings;
  }

  /** The value of a string of ASCII digits. */
  function DigitsValue(s: string): (r: nat)
    requires forall i :: 0 <= i < |s| ==> IsDigit(s[i])
  {
    if s == [] then 0
    else
      assert IsDigit(s[|s| - 1]);
      10 * DigitsValue(s[..|s| - 1]) + (s[|s| - 1] as int - '0' as int)
  }

  /** `int(s)` on the texts a CIK can hold: a non-empty run of digits is its value; anything else raises ValueError. */
  function ParseInt(s: string): (r: Result<nat>)
    ensures r.Ok? <==> s != [] && forall i :: 0 <= i < |s| ==> IsDigit(s[i])
  {
    if s != [] && forall i :: 0 <= i < |s| ==> IsDigit(s[i]) then Ok(DigitsValue(s)) else Err(ValueError)
  }

  /** Leading zeros do not change the value: `int("0320193") == 320193`. */
  lemma ParseIntExample()
    ensures ParseInt("0320193") == Ok(320193)
  {
    assert "0320193"[..6] == "032019";
    assert "032019"[..5] == "03201";
    assert "03201"[..4] == "0320";
    assert "0320"[..3] == "032";
    assert "032"[..2] == "03";
    assert "03"[..1] == "0";
    assert "0"[..0] == "";
  }

  const ArchiveBase: string := "https://www.sec.gov/Archives/edgar/data/"
  const IndexPage: string := "-index.htm"
  const FullText: string := ".txt"
  const OpenTag: string := "<issuerTradingSymbol>"
  const CloseTag: string := "</issuerTradingSymbol>"
  const NoTicker: string := "no_ticker"

  /** The form types whose filings state the issuer's symbol: insider forms 3, 4 and 5. */
  const InsiderForms: seq<string> := ["5", "3", "4"]

  /**
   * The full-text URL of a filing: `/data/{parts[6]}/{parts[7]}/{parts[-1]}`
   * of the index link split at `/`, with `-index.htm` replaced by `.txt`; a
   * link of fewer than eight parts raises IndexError.
   */
  function ArchiveUrl(link: string): (r: Result<string>)
    ensures r.Err? <==> |Split(link, '/')| < 8
    ensures r.Err? ==> r.error == IndexError
  {
    var parts := Split(link, '/');
    if |parts| < 8 then Err(IndexError)
    else Ok(ArchiveBase + parts[6] + "/" + parts[7] + "/" + ReplaceAll(parts[|parts| - 1], IndexPage, FullText))
  }

  /**
   * The fallback URL keeps the directory of an index link and only renames
   * its file: `-index.htm` becomes `.txt`. A feed link
   * `https://www.sec.gov/Archives/edgar/data/{cik}/{folder}/{file}` has six
   * parts before the CIK, so the new URL names the same CIK and accession
   * folder under the archive root.
   */
  lemma ArchiveUrlOfIndexLink(head: seq<string>, cik: string, folder: string, file: string)
    requires |head| == 6 && forall i :: 0 <= i < 6 ==> '/' !in head[i]
    requires '/' !in cik && '/' !in folder && '/' !in file
    ensures ArchiveUrl(Join(head + [cik, folder, file], "/"))
         == Ok(ArchiveBase + cik + "/" + folder + "/" + ReplaceAll(file, IndexPage, FullText))
  {
    var parts := head + [cik, folder, file];
    SplitJoin(parts, '/');
    assert parts[6] == cik && parts[7] == folder && parts[8] == file;
  }

  /**
   * `re.findall(r"<issuerTradingSymbol>(.*?)</issuerTradingSymbol>", body, re.DOTALL)[0]`:
   * the text between the first opening tag and the first closing tag after
   * it. If the first opening tag has no closing tag after it, no later one
   * does either, so there is no match at all.
   */
  function FirstTagged(body: string): (r: Option<string>) {
    match IndexOf(body, OpenTag)
    case None => None
    case Some(i) =>
      var rest := body[i + |OpenTag|..];
      match IndexOf(rest, CloseTag)
      case None => None
      case Some(j) => Some(rest[..j])
  }

  /** A body without the opening tag yields no ticker. */
  lemma NoTagNoTicker(body: string)
    requires !Contains(body, OpenTag)
    ensures FirstTagged(body) == None
  {
    ContainsAt(body, OpenTag);
    IndexOfSpec(body, OpenTag);
  }

  /** A body that starts with a tagged symbol yields that symbol, whatever follows. */
  lemma TaggedSymbol(symbol: string, rest: string)
    requires '<' !in symbol
    ensures FirstTagged(OpenTag + symbol + CloseTag + rest) == Some(symbol)
  {
    var body := OpenTag + symbol + CloseTag + rest;
    assert body[..|OpenTag|] == OpenTag;
    var after := body[|OpenTag|..];
    assert after == symbol + CloseTag + rest;
    IndexOfSpec(after, CloseTag);
    assert OccursAt(after, CloseTag, |symbol|) by {
      assert after[|symbol|..|symbol| + |CloseTag|] == CloseTag;
    }
    forall j | 0 <= j < |symbol| ensures !OccursAt(after, CloseTag, j) {
      assert after[j] == symbol[j];
    }
    assert after[..|symbol|] == symbol;
  }

  /** `enrich`'s answer: a `(ticker, data)` pair. */
  datatype Enriched = Enriched(ticker: string, filing: Filing)

  /**
   * `enrich(data, table)`. `int(data["cik"])` comes before the `try`, so
   * the text "No CIK found" raises ValueError out of it. A table hit gives
   * that ticker. On a miss, a filing that is not an insider form gets
   * "no_ticker". An insider form has its full text fetched: the first tagged
   * symbol of a 200 response is the ticker, and a response with no symbol or
   * another status gives None. A link too short to name the archive raises
   * IndexError inside the handler.
   */
  function Enrich(filing: Filing, table: map<int, string>, fetch: string -> (int, string)): (r: Result<Option<Enriched>>)
  {
    match ParseInt(filing.cik)
    case Err(e) => Err(e)
    case Ok(cik) =>
      if cik in table then Ok(Some(Enriched(table[cik], filing)))
      else if filing.formType in InsiderForms then
        match ArchiveUrl(filing.link)
        case Err(e) => Err(e)
        case Ok(url) =>
          var (status, body) := fetch(url);
          if status != 200 then Ok(None)
          else match FirstTagged(body)
            case None => Ok(None)
            case Some(ticker) => Ok(Some(Enriched(ticker, filing)))
      else Ok(Some(Enriched(NoTicker, filing)))
  }

  /** The decision tree of `enrich`, case by case; the filing itself is passed on unchanged. */
  lemma EnrichCases(filing: Filing, table: map<int, string>, fetch: string -> (int, string))
    ensures var r := Enrich(filing, table, fetch);
      && (ParseInt(filing.cik).Err? ==> r == Err(ValueError))
      && (filing.cik == NoCik ==> r == Err(ValueError))
      && (ParseInt(filing.cik).Ok? && ParseInt(filing.cik).value in table ==>
            r == Ok(Some(Enriched(table[ParseInt(filing.cik).value], filing))))
      && (ParseInt(filing.cik).Ok? && ParseInt(filing.cik).value !in table && filing.formType !in InsiderForms ==>
            r == Ok(Some(Enriched(NoTicker, filing))))
      && (ParseInt(filing.cik).Ok? && ParseInt(filing.cik).value !in table && filing.formType in InsiderForms ==>
            match ArchiveUrl(filing.link)
            case Err(e) => r == Err(e)
            case Ok(url) =>
              && (fetch(url).0 != 200 ==> r == Ok(None))
              && (fetch(url).0 == 200 && FirstTagged(fetch(url).1).None? ==> r == Ok(None))
              && (fetch(url).0 == 200 && FirstTagged(fetch(url).1).Some? ==>
                    r == Ok(Some(Enriched(FirstTagged(fetch(url).1).value, filing)))))
      && (r.Ok? && r.value.Some? ==> r.value.value.filing == filing)
  {
    assert NoCik[0] == 'N' && !IsDigit('N');
  }

  /** A hit in the table never touches the network: any two fetchers agree. */
  lemma HitNeedsNoFetch(filing: Filing, table: map<int, string>, fetch1: string -> (int, string), fetch2: string -> (int, string))
    requires ParseInt(filing.cik).Ok? && ParseInt(filing.cik).value in table
    ensures Enrich(filing, table, fetch1) == Enrich(filing, table, fetch2)
  {
  }
}
