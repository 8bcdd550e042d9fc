/**
 * The Python values that flow through the scripts: what `json.loads`
 * produces, plus the UTC `datetime` that `parse_time` puts in its place.
 * A dict is an association list in insertion order, because Python dicts
 * remember the order their keys were first inserted and `flatten_meta`
 * depends on it. The exception a step raises is an `Err`.
 */
module Values {
  import opened Text

  /** The Python exception a step raises instead of returning. */
  datatype Error =
    | KeyError | TypeError | ValueError | IndexError | AttributeError | AssertionError
    | JsonDecodeError   // json.loads on malformed text
    | PipelineError     // any exception raised inside a third-party pipeline

  datatype Result<+T> = Ok(value: T) | Err(error: Error)

  datatype Value =
    | Null                                  // None / JSON null
    | Bool(b: bool)
    | Int(i: int)
    | Float(repr: string)                   // a float, held as its Python repr ("0.0", "1.5", ...)
    | Str(s: string)
    | List(items: seq<Value>)
    | Dict(fields: seq<(string, Value)>)   // keys in insertion order
    | Time(year: nat, month: nat, day: nat, hour: nat, minute: nat, second: nat)  // datetime with tzinfo=timezone.utc

  type Fields = seq<(string, Value)>

  /** The key set of a dict. */
  function Keys(fs: Fields): set<string> {
    set kv | kv in fs :: kv.0
  }

  /** No key appears twice: true of every dict Python builds. */
  predicate DistinctKeys(fs: Fields) {
    forall i, j :: 0 <= i < j < |fs| ==> fs[i].0 != fs[j].0
  }

  /** `d.get(k)`, with `None` for a missing key. */
  function Get(fs: Fields, k: string): (r: Option<Value>)
    ensures r.Some? <==> k in Keys(fs)
    ensures r.Some? ==> (k, r.value) in fs
  {
    if fs == [] then None
    else if fs[0].0 == k then Some(fs[0].1)
    else
      assert Keys(fs) == {fs[0].0} + Keys(fs[1..]) by { assert fs == [fs[0]] + fs[1..]; }
      Get(fs[1..], k)
  }

  /** `k in d` */
  predicate HasKey(fs: Fields, k: string) {
    k in Keys(fs)
  }

  lemma {:induction false} KeysAppend(a: Fields, b: Fields)
    ensures Keys(a + b) == Keys(a) + Keys(b)
  {
    forall k | k in Keys(a + b) ensures k in Keys(a) + Keys(b) {
      var kv :| kv in a + b && kv.0 == k;
      if kv in a {} else {}
    }
  }

  lemma {:induction false} GetAppend(fs: Fields, k: string, v: Value, k': string)
    ensures Get(fs + [(k, v)], k') ==
            if k' in Keys(fs) then Get(fs, k') else if k' == k then Some(v) else None
  {
    if fs == [] {
      assert [] + [(k, v)] == [(k, v)];
    } else {
      assert (fs + [(k, v)])[1..] == fs[1..] + [(k, v)];
      assert Keys(fs) == {fs[0].0} + Keys(fs[1..]) by { assert fs == [fs[0]] + fs[1..]; }
      GetAppend(fs[1..], k, v, k');
    }
  }

  /** The keys of a non-empty dict: the first entry's and the rest's. */
  lemma KeysCons(fs: Fields)
    requires fs != []
    ensures Keys(fs) == {fs[0].0} + Keys(fs[1..])
  {
    assert fs == [fs[0]] + fs[1..];
  }

  /** Removing `k` from a set with one more element `a` in front. */
  lemma SetMinusCons(a: string, s: set<string>, k: string)
    ensures ({a} + s) - {k} == if a == k then s - {k} else {a} + (s - {k})
  {
  }

  /** The keys of a two-entry dict literal. */
  lemma KeysOfTwo(a: (string, Value), b: (string, Value))
    ensures Keys([a, b]) == {a.0, b.0}
  {
    var fs := [a, b];
    assert fs[0] == a && fs[1] == b;
  }

  /** The keys of a four-entry dict literal. */
  lemma KeysOfFour(a: (string, Value), b: (string, Value), c: (string, Value), d: (string, Value))
    ensures Keys([a, b, c, d]) == {a.0, b.0, c.0, d.0}
  {
    var fs := [a, b, c, d];
    assert fs[0] == a && fs[1] == b && fs[2] == c && fs[3] == d;
  }

  /** Every entry whose key is `k` given the value `v`, in place. */
  function Replace(fs: Fields, k: string, v: Value): (r: Fields)
    ensures |r| == |fs| && Keys(r) == Keys(fs)
    ensures forall i :: 0 <= i < |fs| ==> r[i].0 == fs[i].0
    ensures forall k' :: Get(r, k') == if k' == k && k in Keys(fs) then Some(v) else Get(fs, k')
    ensures forall kv :: kv in r ==> kv in fs || kv == (k, v)
  {
    if fs == [] then []
    else
      var rest := Replace(fs[1..], k, v);
      var r := [if fs[0].0 == k then (k, v) else fs[0]] + rest;
      assert fs == [fs[0]] + fs[1..];
      assert Keys(fs) == {fs[0].0} + Keys(fs[1..]);
      assert Keys(r) == {r[0].0} + Keys(rest) by { assert r[1..] == rest; }
      assert r[1..] == rest;
      r
  }

  /** `d[k] = v`: an existing key keeps its position, a new key goes last. */
  function Set(fs: Fields, k: string, v: Value): (r: Fields)
    ensures Keys(r) == Keys(fs) + {k}
    ensures Get(r, k) == Some(v)
    ensures forall k' :: k' != k ==> Get(r, k') == Get(fs, k')
    ensures DistinctKeys(fs) ==> DistinctKeys(r)
    ensures forall kv :: kv in r ==> kv in fs || kv == (k, v)
  {
    if k in Keys(fs) then Replace(fs, k, v)
    else
      KeysAppend(fs, [(k, v)]);
      assert Keys([(k, v)]) == {k};
      forall k' ensures Get(fs + [(k, v)], k') == if k' == k then Some(v) else Get(fs, k') {
        GetAppend(fs, k, v, k');
      }
      assert forall i :: 0 <= i < |fs| ==> fs[i] in fs;
      fs + [(k, v)]
  }

  /** `d.pop(k, None)` as a statement: the entry for `k` removed, the others in order. */
  function Pop(fs: Fields, k: string): (r: Fields)
    ensures Keys(r) == Keys(fs) - {k}
    ensures Get(r, k) == None
    ensures forall k' :: k' != k ==> Get(r, k') == Get(fs, k')
    ensures DistinctKeys(fs) ==> DistinctKeys(r)
    ensures forall kv :: kv in r ==> kv in fs
  {
    if fs == [] then []
    else
      var rest := Pop(fs[1..], k);
      KeysCons(fs);
      assert forall kv :: kv in fs[1..] ==> kv in fs;
      if fs[0].0 == k then
        assert Keys(rest) == Keys(fs) - {k} by { SetMinusCons(fs[0].0, Keys(fs[1..]), k); }
        rest
      else
        var r := [fs[0]] + rest;
        assert r[0] == fs[0] && r[1..] == rest;
        assert Keys(r) == Keys(fs) - {k} by {
          KeysCons(r);
          SetMinusCons(fs[0].0, Keys(fs[1..]), k);
        }
        TailDistinct(fs);
        ConsDistinct(fs[0], rest);
        r
  }

  /** The tail of a dict without repeated keys has none either, and does not hold the head's key. */
  lemma TailDistinct(fs: Fields)
    requires fs != []
    ensures DistinctKeys(fs) ==> DistinctKeys(fs[1..]) && fs[0].0 !in Keys(fs[1..])
  {
    if DistinctKeys(fs) {
      var t := fs[1..];
      forall i, j | 0 <= i < j < |t| ensures t[i].0 != t[j].0 {
        assert t[i] == fs[i + 1] && t[j] == fs[j + 1];
      }
      forall kv | kv in t ensures kv.0 != fs[0].0 {
        var j :| 0 <= j < |t| && t[j] == kv;
        assert fs[j + 1] == kv;
      }
    }
  }

  /** An entry whose key the rest lacks, in front of entries without repeated keys, repeats no key. */
  lemma ConsDistinct(kv: (string, Value), rest: Fields)
    ensures DistinctKeys(rest) && kv.0 !in Keys(rest) ==> DistinctKeys([kv] + rest)
  {
    if DistinctKeys(rest) && kv.0 !in Keys(rest) {
      var r := [kv] + rest;
      forall i, j | 0 <= i < j < |r| ensures r[i].0 != r[j].0 {
        assert r[j] == rest[j - 1] && rest[j - 1] in rest;
        if i > 0 {
          assert r[i] == rest[i - 1];
        }
      }
    }
  }

  /** The value of the LAST entry with key `k`, the one `dict(items)` keeps. */
  function LastGet(items: Fields, k: string): (r: Option<Value>)
    ensures r.Some? <==> k in Keys(items)
  {
    if items == [] then None
    else
      var n := |items| - 1;
      assert items == items[..n] + [items[n]];
      KeysAppend(items[..n], [items[n]]);
      assert Keys([items[n]]) == {items[n].0};
      if items[n].0 == k then Some(items[n].1) else LastGet(items[..n], k)
  }

  /** `d.update(other)` on a copy of `d`: every pair of `other` assigned in order. */
  function Update(fs: Fields, other: Fields): (r: Fields)
    ensures Keys(r) == Keys(fs) + Keys(other)
    ensures forall k :: Get(r, k) == if k in Keys(other) then LastGet(other, k) else Get(fs, k)
    ensures DistinctKeys(fs) ==> DistinctKeys(r)
    ensures forall kv :: kv in r ==> kv in fs || kv in other
  {
    if other == [] then fs
    else
      var n := |other| - 1;
      assert other == other[..n] + [other[n]];
      KeysAppend(other[..n], [other[n]]);
      assert Keys([other[n]]) == {other[n].0};
      Set(Update(fs, other[..n]), other[n].0, other[n].1)
  }

  /** `dict(items)`: one entry per key, the last pair for a key wins. */
  function FromItems(items: Fields): (r: Fields)
    ensures DistinctKeys(r)
    ensures Keys(r) == Keys(items)
    ensures forall k :: Get(r, k) == LastGet(items, k)
    ensures forall kv :: kv in r ==> kv in items
  {
    Update([], items)
  }

  /** `dict(items)` leaves a list without repeated keys exactly as it is. */
  lemma {:induction false} FromItemsDistinct(items: Fields)
    requires DistinctKeys(items)
    ensures FromItems(items) == items
  {
    if items != [] {
      var n := |items| - 1;
      var init := items[..n];
      assert items == init + [items[n]];
      FromItemsDistinct(init);
      forall kv | kv in init ensures kv.0 != items[n].0 {
        var i :| 0 <= i < n && init[i] == kv;
      }
    }
  }

  /** Python truthiness: `if v:` */
  predicate Truthy(v: Value) {
    match v
    case Null => false
    case Bool(b) => b
    case Int(i) => i != 0
    case Float(repr) => repr != "0.0" && repr != "-0.0"
    case Str(s) => s != ""
    case List(items) => items != []
    case Dict(fields) => fields != []
    case Time(_, _, _, _, _, _) => true
  }

  /**
   * `needle in v` for a string needle: a substring test on a str, an
   * element test on a list, a key test on a dict, and a TypeError on
   * anything else.
   */
  function In(needle: string, v: Value): (r: Result<bool>)
    ensures r.Err? <==> !(v.Str? || v.List? || v.Dict?)
    ensures v.Dict? ==> r == Ok(HasKey(v.fields, needle))
    ensures v.Str? ==> r == Ok(Contains(v.s, needle))
    ensures v.List? ==> r == Ok(Str(needle) in v.items)
  {
    match v
    case Str(s) => Ok(Contains(s, needle))
    case List(items) => Ok(Str(needle) in items)
    case Dict(fields) => Ok(HasKey(fields, needle))
    case _ => Err(TypeError)
  }

  /** `len(v)` */
  function Len(v: Value): (r: Result<nat>)
    ensures r.Err? <==> !(v.Str? || v.List? || v.Dict?)
    ensures v.Str? ==> r == Ok(|v.s|)
    ensures v.List? ==> r == Ok(|v.items|)
    ensures v.Dict? ==> r == Ok(|v.fields|)
  {
    match v
    case Str(s) => Ok(|s|)
    case List(items) => Ok(|items|)
    case Dict(fields) => Ok(|fields|)
    case _ => Err(TypeError)
  }

  function DigitChar(d: nat): char
    requires d < 10
  {
    "0123456789"[d]
  }

  function Digits(n: nat): (r: string)
    ensures |r| >= 1 && forall i :: 0 <= i < |r| ==> IsDigit(r[i])
  {
    if n < 10 then [DigitChar(n)] else Digits(n / 10) + [DigitChar(n % 10)]
  }

  /** `str(i)` for an int. */
  function IntToString(i: int): string {
    if i < 0 then "-" + Digits(-i) else Digits(i)
  }

  /** `"%02d" % n` (and `"%04d"` for width 4) for a non-negative n. */
  function Padded(n: nat, width: nat): (r: string)
    ensures |r| >= width
  {
    var d := Digits(n);
    if |d| >= width then d else seq(width - |d|, _ => '0') + d
  }

  /**
   * `repr(s)` for a str: single quotes unless the text holds a single
   * quote and no double quote.
   */
  function QuoteString(s: string): string {
    if '\'' in s && '"' !in s then "\"" + s + "\"" else "'" + s + "'"
  }

  /** `repr(v)`, as `str()` renders the elements of a list or dict. */
  function Repr(v: Value): string
    decreases v, 1
  {
    match v
    case Str(s) => QuoteString(s)
    case Time(y, mo, d, h, mi, sec) =>
      "datetime.datetime(" + IntToString(y) + ", " + IntToString(mo) + ", " + IntToString(d) + ", "
      + IntToString(h) + ", " + IntToString(mi) + (if sec != 0 then ", " + IntToString(sec) else "")
      + ", tzinfo=datetime.timezone.utc)"
    case _ => PyStr(v)
  }

  /** `str(v)` */
  function PyStr(v: Value): string
    decreases v, 0
  {
    match v
    case Null => "None"
    case Bool(b) => if b then "True" else "False"
    case Int(i) => IntToString(i)
    case Float(repr) => repr
    case Str(s) => s
    case List(items) =>
      "[" + Join(seq(|items|, i requires 0 <= i < |items| => Repr(items[i])), ", ") + "]"
    case Dict(fields) =>
      "{" + Join(seq(|fields|, i requires 0 <= i < |fields| =>
                       QuoteString(fields[i].0) + ": " + Repr(fields[i].1)), ", ") + "}"
    case Time(y, mo, d, h, mi, sec) =>
      Padded(y, 4) + "-" + Padded(mo, 2) + "-" + Padded(d, 2) + " "
      + Padded(h, 2) + ":" + Padded(mi, 2) + ":" + Padded(sec, 2) + "+00:00"
  }
}
