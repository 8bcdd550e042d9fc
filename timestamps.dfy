/**
 * `parse_time`: the news event's `created_at` and `updated_at` texts
 * (ISO 8601 as Benzinga sends them, `2024-05-29T01:02:03Z`) become UTC
 * datetimes. Each text has every `T` turned into a space and every `Z`,
 * together with the colons right before it, removed; what is left is
 * parsed with the format `%Y-%m-%d %H:%M:%S`.
 *
 * `time.strptime` is replaced by a fixed-width parser: four-digit year and
 * two-digit month, day, hour, minute and second, with the ranges
 * `datetime` accepts.
 */
module Timestamps {
  import opened Text
  import opened Values

  /** The two keys `parse_time` converts, in the order it converts them. */
  const TimeKeys: seq<string> := ["created_at", "updated_at"]

  /** `re.sub("T", " ", s)` */
  function ReplaceT(s: string): (r: string)
    ensures |r| == |s| && 'T' !in r
    ensures forall i :: 0 <= i < |s| ==> r[i] == if s[i] == 'T' then ' ' else s[i]
  {
    seq(|s|, i requires 0 <= i < |s| => if s[i] == 'T' then ' ' else s[i])
  }

  /** The number of ':' characters `s` starts with. */
  function ColonRun(s: string): (k: nat)
    ensures k <= |s|
    ensures forall i :: 0 <= i < k ==> s[i] == ':'
    ensures k < |s| ==> s[k] != ':'
  {
    if s != [] && s[0] == ':' then 1 + ColonRun(s[1..]) else 0
  }

  /** `re.sub(r":*Z", "", s)`: every `Z` removed together with the run of colons right before it. */
  function StripColonZ(s: string): (r: string)
    ensures 'Z' !in r
    ensures |r| <= |s|
    ensures 'Z' !in s ==> r == s
    decreases |s|
  {
    if s == [] then []
    else
      var k := ColonRun(s);
      if k < |s| && s[k] == 'Z' then StripColonZ(s[k + 1..])
      else [s[0]] + StripColonZ(s[1..])
  }

  /** The text `strptime` is given: `T` to space, then `Z` and its leading colons removed. */
  function NormaliseStamp(s: string): (r: string)
    ensures 'T' !in r && 'Z' !in r
  {
    var t := ReplaceT(s);
    assert forall c :: c in StripColonZ(t) ==> c in t by {
      StripColonZKeeps(t);
    }
    StripColonZ(t)
  }

  /** Removing `Z`s never introduces a character. */
  lemma {:induction false} StripColonZKeeps(s: string)
    ensures forall c :: c in StripColonZ(s) ==> c in s
    decreases |s|
  {
    if s != [] {
      var k := ColonRun(s);
      if k < |s| && s[k] == 'Z' {
        StripColonZKeeps(s[k + 1..]);
      } else {
        StripColonZKeeps(s[1..]);
      }
    }
  }

  function DigitValue(c: char): nat
    requires IsDigit(c)
  {
    (c as int - '0' as int) as nat
  }

  predicate AllDigits(s: string) {
    forall i :: 0 <= i < |s| ==> IsDigit(s[i])
  }

  /** The number a string of decimal digits denotes. */
  function Number(s: string): nat
    requires AllDigits(s)
  {
    if s == [] then 0 else 10 * Number(s[..|s| - 1]) + DigitValue(s[|s| - 1])
  }

  predicate IsLeapYear(y: nat) {
    y % 4 == 0 && (y % 100 != 0 || y % 400 == 0)
  }

  function DaysInMonth(y: nat, m: nat): nat
    requires 1 <= m <= 12
  {
    if m == 2 then (if IsLeapYear(y) then 29 else 28)
    else if m == 4 || m == 6 || m == 9 || m == 11 then 30
    else 31
  }

  /** A date and time `datetime` accepts. */
  predicate ValidTime(t: Value) {
    && t.Time?
    && 1 <= t.year <= 9999 && 1 <= t.month <= 12 && 1 <= t.day <= DaysInMonth(t.year, t.month)
    && t.hour < 24 && t.minute < 60 && t.second < 60
  }

  /** The shape `YYYY-MM-DD HH:MM:SS`: digits everywhere except the separators. */
  predicate Shaped(s: string) {
    && |s| == 19
    && s[4] == '-' && s[7] == '-' && s[10] == ' ' && s[13] == ':' && s[16] == ':'
    && AllDigits(s[0..4]) && AllDigits(s[5..7]) && AllDigits(s[8..10])
    && AllDigits(s[11..13]) && AllDigits(s[14..16]) && AllDigits(s[17..19])
  }

  /**
   * `strptime(s, "%Y-%m-%d %H:%M:%S")` followed by the `datetime(...,
   * tzinfo=timezone.utc)` call: the datetime, or `None` where Python raises
   * ValueError.
   */
  function ParseStamp(s: string): (r: Option<Value>)
    ensures r.Some? ==> ValidTime(r.value)
    ensures r.Some? <==> Shaped(s) && ValidTime(FieldsOf(s))
    ensures r.Some? ==> r.value == FieldsOf(s)
  {
    if !Shaped(s) then None
    else
      var t := FieldsOf(s);
      if ValidTime(t) then Some(t) else None
  }

  /** The six numbers of a shaped text, read at their fixed positions. */
  function FieldsOf(s: string): Value
    requires Shaped(s)
  {
    Time(Number(s[0..4]), Number(s[5..7]), Number(s[8..10]),
         Number(s[11..13]), Number(s[14..16]), Number(s[17..19]))
  }

  /**
   * What `parse_time` does to the value of one key: KeyError if the key is
   * missing, TypeError if its value is not a str (`re.sub` refuses it),
   * ValueError if the normalised text does not parse, else the datetime.
   */
  function Convert(v: Option<Value>): (r: Result<Value>)
    ensures r.Ok? ==> ValidTime(r.value)
    ensures v.None? <==> r == Err(KeyError)
    ensures r == Err(TypeError) <==> v.Some? && !v.value.Str?
  {
    match v
    case None => Err(KeyError)
    case Some(v) =>
      if !v.Str? then Err(TypeError)
      else match ParseStamp(NormaliseStamp(v.s))
        case None => Err(ValueError)
        case Some(t) => Ok(t)
  }

  /**
   * The listed keys converted in turn by `convert`, each overwritten with
   * its result; the first key that fails gives the error.
   */
  function ConvertAll(event: Fields, keys: seq<string>, convert: Option<Value> -> Result<Value>): Result<Fields>
    decreases |keys|
  {
    if keys == [] then Ok(event)
    else match convert(Get(event, keys[0]))
      case Err(e) => Err(e)
      case Ok(t) => ConvertAll(Set(event, keys[0], t), keys[1..], convert)
  }

  /** `parse_time`: the loop over the two keys, overwriting each with its datetime. */
  method ParseTime(event: Fields) returns (r: Result<Fields>)
    ensures r == ConvertAll(event, TimeKeys, Convert)
  {
    var data := event;
    for i := 0 to |TimeKeys|
      invariant ConvertAll(data, TimeKeys[i..], Convert) == ConvertAll(event, TimeKeys, Convert)
    {
      var item := TimeKeys[i];
      var converted := Convert(Get(data, item));
      if converted.Err? {
        return Err(converted.error);
      }
      data := Set(data, item, converted.value);
    }
    r := Ok(data);
  }

  predicate Distinct(keys: seq<string>) {
    forall a, b :: 0 <= a < b < |keys| ==> keys[a] != keys[b]
  }

  /** The key at index j is the first of `keys` that fails to convert. */
  predicate FirstFailure(event: Fields, keys: seq<string>, convert: Option<Value> -> Result<Value>, j: nat)
    requires j < |keys|
  {
    convert(Get(event, keys[j])).Err? && forall i :: 0 <= i < j ==> convert(Get(event, keys[i])).Ok?
  }

  /** After the first key is set, the remaining keys are distinct from it and from each other, and still read their old values. */
  lemma AfterFirstKey(event: Fields, keys: seq<string>, t: Value)
    requires Distinct(keys) && keys != []
    ensures Distinct(keys[1..]) && keys[0] !in keys[1..]
    ensures forall j :: 0 <= j < |keys| - 1 ==> keys[1..][j] == keys[j + 1] && Get(Set(event, keys[0], t), keys[j + 1]) == Get(event, keys[j + 1])
  {
    assert forall j :: 0 <= j < |keys| - 1 ==> keys[1..][j] == keys[j + 1];
  }

  /** The conversion succeeds exactly when every listed key converts. */
  lemma {:induction false} ConvertAllOk(event: Fields, keys: seq<string>, convert: Option<Value> -> Result<Value>)
    requires Distinct(keys)
    ensures ConvertAll(event, keys, convert).Ok? <==> forall j :: 0 <= j < |keys| ==> convert(Get(event, keys[j])).Ok?
    decreases |keys|
  {
    if keys != [] {
      var k := keys[0];
      match convert(Get(event, k))
      case Err(_) =>
      case Ok(t) =>
        var next := Set(event, k, t);
        AfterFirstKey(event, keys, t);
        ConvertAllOk(next, keys[1..], convert);
    }
  }

  /**
   * A successful conversion keeps keys distinct, and keeps the set of keys
   * when a missing key cannot convert.
   */
  lemma {:induction false} ConvertAllKeys(event: Fields, keys: seq<string>, convert: Option<Value> -> Result<Value>)
    requires ConvertAll(event, keys, convert).Ok?
    ensures convert(None).Err? ==> Keys(ConvertAll(event, keys, convert).value) == Keys(event)
    ensures DistinctKeys(event) ==> DistinctKeys(ConvertAll(event, keys, convert).value)
    decreases |keys|
  {
    if keys != [] {
      var k := keys[0];
      var next := Set(event, k, convert(Get(event, k)).value);
      ConvertAllKeys(next, keys[1..], convert);
      if convert(None).Err? {
        assert HasKey(event, k);
      }
    }
  }

  /** A successful conversion leaves every key it does not list alone. */
  lemma {:induction false} ConvertAllUnlisted(event: Fields, keys: seq<string>, convert: Option<Value> -> Result<Value>, key: string)
    requires key !in keys && ConvertAll(event, keys, convert).Ok?
    ensures Get(ConvertAll(event, keys, convert).value, key) == Get(event, key)
    decreases |keys|
  {
    if keys != [] {
      var k := keys[0];
      var next := Set(event, k, convert(Get(event, k)).value);
      assert key !in keys[1..];
      ConvertAllUnlisted(next, keys[1..], convert, key);
    }
  }

  /** A successful conversion holds, under each listed key, what that key's old value converts to. */
  lemma {:induction false} ConvertAllListed(event: Fields, keys: seq<string>, convert: Option<Value> -> Result<Value>, key: string)
    requires Distinct(keys) && key in keys && ConvertAll(event, keys, convert).Ok?
    ensures var out := ConvertAll(event, keys, convert).value;
      Get(out, key).Some? && convert(Get(event, key)) == Ok(Get(out, key).value)
    decreases |keys|
  {
    var k := keys[0];
    var t := convert(Get(event, k)).value;
    var next := Set(event, k, t);
    AfterFirstKey(event, keys, t);
    if key == k {
      ConvertAllUnlisted(next, keys[1..], convert, key);
    } else {
      var i :| 0 <= i < |keys| && keys[i] == key;
      assert keys[1..][i - 1] == key;
      ConvertAllListed(next, keys[1..], convert, key);
      assert Get(next, key) == Get(event, key);
    }
  }

  /** A failed conversion raises the error of the first key that fails. */
  lemma {:induction false} ConvertAllErr(event: Fields, keys: seq<string>, convert: Option<Value> -> Result<Value>)
    requires Distinct(keys) && ConvertAll(event, keys, convert).Err?
    ensures exists j :: 0 <= j < |keys| && FirstFailure(event, keys, convert, j)
                        && ConvertAll(event, keys, convert).error == convert(Get(event, keys[j])).error
    decreases |keys|
  {
    var k := keys[0];
    match convert(Get(event, k))
    case Err(_) =>
      assert FirstFailure(event, keys, convert, 0);
    case Ok(t) =>
      var next := Set(event, k, t);
      AfterFirstKey(event, keys, t);
      ConvertAllErr(next, keys[1..], convert);
      var j :| 0 <= j < |keys[1..]| && FirstFailure(next, keys[1..], convert, j)
               && ConvertAll(next, keys[1..], convert).error == convert(Get(next, keys[1..][j])).error;
      assert FirstFailure(event, keys, convert, j + 1);
  }

  /** With `parse_time`'s conversion, success means the key was present and now holds a valid datetime. */
  lemma ParseTimeValid(event: Fields, key: string)
    requires ConvertAll(event, TimeKeys, Convert).Ok? && key in TimeKeys
    ensures HasKey(event, key)
    ensures var out := ConvertAll(event, TimeKeys, Convert).value;
            Get(out, key).Some? && ValidTime(Get(out, key).value)
  {
    assert Distinct(TimeKeys);
    ConvertAllListed(event, TimeKeys, Convert, key);
    ConvertedValid(Get(event, key), Get(ConvertAll(event, TimeKeys, Convert).value, key).value);
  }

  /** A value `parse_time` converts was present, and it converts to a valid date-time. */
  lemma ConvertedValid(v: Option<Value>, t: Value)
    requires Convert(v) == Ok(t)
    ensures v.Some? && ValidTime(t)
  {
  }

  /** A successful `parse_time` changes values, never the set of keys. */
  lemma ParseTimeKeepsKeys(event: Fields)
    requires ConvertAll(event, TimeKeys, Convert).Ok?
    ensures Keys(ConvertAll(event, TimeKeys, Convert).value) == Keys(event)
  {
    assert Convert(None).Err?;
    ConvertAllKeys(event, TimeKeys, Convert);
  }

  /** Six digit groups in the order year, month, day, hour, minute, second, laid out as `Y-M-D<sep>H:M:S`. */
  function Layout(y: string, mo: string, d: string, sep: char, h: string, mi: string, sec: string): string {
    y + "-" + mo + "-" + d + [sep] + h + ":" + mi + ":" + sec
  }

  /** The ISO 8601 text of a datetime, as Benzinga writes its timestamps. */
  function IsoText(t: Value): string
    requires t.Time?
  {
    Layout(Padded(t.year, 4), Padded(t.month, 2), Padded(t.day, 2), 'T',
           Padded(t.hour, 2), Padded(t.minute, 2), Padded(t.second, 2)) + "Z"
  }

  /** The same text with a fraction of a second (`.5`, `.123456`) before the `Z`. */
  function FractionText(t: Value, frac: string): string
    requires t.Time?
  {
    Layout(Padded(t.year, 4), Padded(t.month, 2), Padded(t.day, 2), 'T',
           Padded(t.hour, 2), Padded(t.minute, 2), Padded(t.second, 2)) + "." + frac + "Z"
  }

  lemma {:induction false} NumberSnoc(s: string, c: char)
    requires AllDigits(s) && IsDigit(c)
    ensures AllDigits(s + [c]) && Number(s + [c]) == 10 * Number(s) + DigitValue(c)
  {
    assert (s + [c])[..|s|] == s;
  }

  lemma {:induction false} NumberDigits(n: nat)
    ensures AllDigits(Digits(n)) && Number(Digits(n)) == n
  {
    if n >= 10 {
      var q, m := n / 10, n % 10;
      NumberDigits(q);
      DigitCharValue(m);
      NumberSnoc(Digits(q), DigitChar(m));
      assert Digits(n) == Digits(q) + [DigitChar(m)];
      assert n == 10 * q + m;
    } else {
      DigitCharValue(n);
      assert Digits(n) == [] + [DigitChar(n)];
      NumberSnoc([], DigitChar(n));
    }
  }

  /** The digit character of a value below ten reads back as that value. */
  lemma DigitCharValue(d: nat)
    requires d < 10
    ensures IsDigit(DigitChar(d)) && DigitValue(DigitChar(d)) == d
  {
  }

  lemma {:induction false} NumberZeros(k: nat, d: string)
    requires AllDigits(d)
    ensures AllDigits(seq(k, _ => '0') + d) && Number(seq(k, _ => '0') + d) == Number(d)
    decreases |d|
  {
    var z := seq(k, _ => '0');
    if d == [] {
      ZerosNumber(k);
      assert z + d == z;
    } else {
      var init := d[..|d| - 1];
      NumberZeros(k, init);
      assert z + d == (z + init) + [d[|d| - 1]];
      NumberSnoc(z + init, d[|d| - 1]);
    }
  }

  lemma {:induction false} ZerosNumber(k: nat)
    ensures AllDigits(seq(k, _ => '0')) && Number(seq(k, _ => '0')) == 0
  {
    if k > 0 {
      ZerosNumber(k - 1);
      assert seq(k, _ => '0') == seq(k - 1, _ => '0') + ['0'];
      NumberSnoc(seq(k - 1, _ => '0'), '0');
    }
  }

  lemma {:induction false} DigitsLength(n: nat, w: nat)
    requires w >= 1 && n < Pow10(w)
    ensures |Digits(n)| <= w
  {
    if n >= 10 {
      DigitsLength(n / 10, w - 1);
    }
  }

  function Pow10(w: nat): nat {
    if w == 0 then 1 else 10 * Pow10(w - 1)
  }

  /** A zero-padded number reads back as itself, and has exactly the width when it fits. */
  lemma PaddedNumber(n: nat, w: nat)
    requires w >= 1 && n < Pow10(w)
    ensures |Padded(n, w)| == w && AllDigits(Padded(n, w)) && Number(Padded(n, w)) == n
  {
    DigitsLength(n, w);
    NumberDigits(n);
    ZeroPadRead(Digits(n), w, n);
  }

  /** Zeros put in front of a digit string up to a width keep its number and fill the width. */
  lemma ZeroPadRead(d: string, w: nat, n: nat)
    requires AllDigits(d) && Number(d) == n && |d| <= w
    ensures var p := if |d| >= w then d else seq(w - |d|, _ => '0') + d;
            |p| == w && AllDigits(p) && Number(p) == n
  {
    if |d| < w {
      NumberZeros(w - |d|, d);
    }
  }

  /** Neither `T` nor `Z` occurs: the normalisation has nothing to replace or remove. */
  predicate Plain(s: string) {
    forall i :: 0 <= i < |s| ==> s[i] != 'T' && s[i] != 'Z'
  }

  lemma PlainJoin(a: string, b: string)
    requires Plain(a) && Plain(b)
    ensures Plain(a + b)
  {
  }

  /** The date half and the time half (with a plain fraction) of a digit layout hold no `T` and no `Z`. */
  lemma PlainHalves(y: string, mo: string, d: string, h: string, mi: string, sec: string, frac: string)
    requires AllDigits(y) && AllDigits(mo) && AllDigits(d) && AllDigits(h) && AllDigits(mi) && AllDigits(sec)
    requires Plain(frac)
    ensures Plain(y + "-" + mo + "-" + d) && Plain(h + ":" + mi + ":" + sec + frac)
  {
    PlainJoin(y, "-");
    PlainJoin(y + "-", mo);
    PlainJoin(y + "-" + mo, "-");
    PlainJoin(y + "-" + mo + "-", d);
    PlainJoin(h, ":");
    PlainJoin(h + ":", mi);
    PlainJoin(h + ":" + mi, ":");
    PlainJoin(h + ":" + mi + ":", sec);
    PlainJoin(h + ":" + mi + ":" + sec, frac);
  }

  /** A layout with a fraction after it is its date half, the separator and its time half. */
  lemma LayoutHalves(y: string, mo: string, d: string, sep: char, h: string, mi: string, sec: string, frac: string)
    ensures Layout(y, mo, d, sep, h, mi, sec) + frac == (y + "-" + mo + "-" + d) + [sep] + (h + ":" + mi + ":" + sec + frac)
  {
  }

  /** Normalisation only drops the final `Z` of a text with no other `Z` and no colon before it. */
  lemma {:induction false} StripFinalZ(s: string)
    requires |s| >= 1 && s[|s| - 1] == 'Z'
    requires forall i :: 0 <= i < |s| - 1 ==> s[i] != 'Z'
    requires |s| >= 2 ==> s[|s| - 2] != ':'
    ensures StripColonZ(s) == s[..|s| - 1]
    decreases |s|
  {
    if |s| > 1 {
      StripFinalZ(s[1..]);
      assert s[..|s| - 1] == [s[0]] + s[1..][..|s| - 2];
    }
  }

  /** `T` to space in a text with a single `T`. */
  lemma ReplaceSingleT(a: string, b: string)
    requires forall i :: 0 <= i < |a| ==> a[i] != 'T'
    requires forall i :: 0 <= i < |b| ==> b[i] != 'T'
    ensures ReplaceT(a + "T" + b) == a + " " + b
  {
  }

  /**
   * A laid-out text with `T` between date and time and a final `Z` (after
   * an optional `.`-led fraction) normalises to the space-separated layout
   * (with that fraction).
   */
  lemma LayoutNormalised(y: string, mo: string, d: string, h: string, mi: string, sec: string, frac: string)
    requires AllDigits(y) && AllDigits(mo) && AllDigits(d) && AllDigits(h) && AllDigits(mi) && AllDigits(sec)
    requires |y| == 4 && |mo| == 2 && |d| == 2 && |h| == 2 && |mi| == 2 && |sec| == 2
    requires Plain(frac) && (frac != [] ==> frac[|frac| - 1] != ':')
    ensures NormaliseStamp(Layout(y, mo, d, 'T', h, mi, sec) + frac + "Z") == Layout(y, mo, d, ' ', h, mi, sec) + frac
  {
    var date, time := y + "-" + mo + "-" + d, h + ":" + mi + ":" + sec + frac;
    PlainHalves(y, mo, d, h, mi, sec, frac);
    LayoutHalves(y, mo, d, 'T', h, mi, sec, frac);
    LayoutHalves(y, mo, d, ' ', h, mi, sec, frac);
    var spaced := Layout(y, mo, d, ' ', h, mi, sec) + frac;
    assert Layout(y, mo, d, 'T', h, mi, sec) + frac + "Z" == date + "T" + (time + "Z");
    ReplaceSingleT(date, time + "Z");
    assert date + " " + (time + "Z") == spaced + "Z";
    PlainJoin(date, " ");
    PlainJoin(date + " ", time);
    StripFinalZ(spaced + "Z");
    assert (spaced + "Z")[..|spaced|] == spaced;
  }

  /** Six digit groups laid out with a space give a shaped text whose fields are those groups. */
  lemma LayoutFields(y: string, mo: string, d: string, h: string, mi: string, sec: string)
    requires |y| == 4 && |mo| == 2 && |d| == 2 && |h| == 2 && |mi| == 2 && |sec| == 2
    requires AllDigits(y) && AllDigits(mo) && AllDigits(d) && AllDigits(h) && AllDigits(mi) && AllDigits(sec)
    ensures var s := Layout(y, mo, d, ' ', h, mi, sec);
            && Shaped(s)
            && s[0..4] == y && s[5..7] == mo && s[8..10] == d && s[11..13] == h && s[14..16] == mi && s[17..19] == sec
  {
    var s := Layout(y, mo, d, ' ', h, mi, sec);
    assert s[0..4] == y && s[5..7] == mo && s[8..10] == d;
    assert s[11..13] == h && s[14..16] == mi && s[17..19] == sec;
  }

  /** Every valid datetime, written in ISO 8601 with a `Z`, is read back by `parse_time` as itself. */
  lemma IsoRoundTrip(t: Value)
    requires ValidTime(t)
    ensures ParseStamp(NormaliseStamp(IsoText(t))) == Some(t)
    ensures Convert(Some(Str(IsoText(t)))) == Ok(t)
  {
    PaddedNumber(t.year, 4);
    PaddedNumber(t.month, 2);
    PaddedNumber(t.day, 2);
    PaddedNumber(t.hour, 2);
    PaddedNumber(t.minute, 2);
    PaddedNumber(t.second, 2);
    var y, mo, d := Padded(t.year, 4), Padded(t.month, 2), Padded(t.day, 2);
    var h, mi, sec := Padded(t.hour, 2), Padded(t.minute, 2), Padded(t.second, 2);
    LayoutNormalised(y, mo, d, h, mi, sec, []);
    assert Layout(y, mo, d, 'T', h, mi, sec) + [] == Layout(y, mo, d, 'T', h, mi, sec);
    assert Layout(y, mo, d, ' ', h, mi, sec) + [] == Layout(y, mo, d, ' ', h, mi, sec);
    LayoutFields(y, mo, d, h, mi, sec);
  }

  /**
   * A timestamp with fractional seconds does not match the format: the text
   * left after normalisation is longer than `%Y-%m-%d %H:%M:%S` allows, so
   * `parse_time` raises ValueError.
   */
  lemma FractionalSecondsRejected(t: Value, digits: string)
    requires ValidTime(t) && digits != [] && AllDigits(digits)
    ensures ParseStamp(NormaliseStamp(FractionText(t, digits))) == None
    ensures Convert(Some(Str(FractionText(t, digits)))) == Err(ValueError)
  {
    PaddedNumber(t.year, 4);
    PaddedNumber(t.month, 2);
    PaddedNumber(t.day, 2);
    PaddedNumber(t.hour, 2);
    PaddedNumber(t.minute, 2);
    PaddedNumber(t.second, 2);
    var y, mo, d := Padded(t.year, 4), Padded(t.month, 2), Padded(t.day, 2);
    var h, mi, sec := Padded(t.hour, 2), Padded(t.minute, 2), Padded(t.second, 2);
    var frac := "." + digits;
    assert Plain(frac);
    assert FractionText(t, digits) == Layout(y, mo, d, 'T', h, mi, sec) + frac + "Z";
    LayoutNormalised(y, mo, d, h, mi, sec, frac);
  }
}
