/**
 * `flatten_meta`: a nested metadata dict turned into a single-level dict
 * whose keys are the paths to the nested values joined by `_`. It is what
 * the Azure Search indexer stores as a document's `meta`.
 */
module Flatten {
  import opened Text
  import opened Values

  /** The value kinds `flatten_meta` keeps as they are: str, int, float and bool. */
  predicate IsScalar(v: Value) {
    v.Str? || v.Int? || v.Float? || v.Bool?
  }

  /** `f"{parent_key}_{k}" if parent_key else k` */
  function NewKey(parent: string, k: string): (r: string)
    ensures parent == "" ==> r == k
    ensures parent != "" ==> r == parent + "_" + k
  {
    if parent == "" then k else parent + "_" + k
  }

  /** The value a leaf contributes: a scalar as it is, anything else as its `str()` text. */
  function Leaf(v: Value): (r: Value)
    ensures IsScalar(r)
    ensures IsScalar(v) ==> r == v
    ensures !IsScalar(v) ==> r == Str(PyStr(v))
  {
    if IsScalar(v) then v else Str(PyStr(v))
  }

  /**
   * What entry `i` of the dict `d` adds to the items of `_flatten(d, parent)`:
   * the items of the flattened nested dict, or one item for a leaf.
   */
  function Contribution(d: Value, i: nat, parent: string): Fields
    requires d.Dict? && i < |d.fields|
    decreases d, 1
  {
    var (k, v) := d.fields[i];
    assert d.fields[i] in d.fields;
    if v.Dict? then FlattenDict(v, NewKey(parent, k)) else [(NewKey(parent, k), Leaf(v))]
  }

  /** The items list of `_flatten(d, parent)` built from entry `i` on. */
  function ItemsFrom(d: Value, i: nat, parent: string): Fields
    requires d.Dict? && i <= |d.fields|
    decreases d, 2, |d.fields| - i
  {
    if i == |d.fields| then [] else Contribution(d, i, parent) + ItemsFrom(d, i + 1, parent)
  }

  /** `_flatten(d, parent)`: `dict(items)` over all entries. */
  function FlattenDict(d: Value, parent: string): Fields
    requires d.Dict?
    decreases d, 3
  {
    FromItems(ItemsFrom(d, 0, parent))
  }

  /** `flatten_meta(meta)` */
  function FlattenMeta(meta: Fields): Fields {
    FlattenDict(Dict(meta), "")
  }

  /** The loop of `_flatten` one entry further: the items so far extended by entry `i`'s contribution. */
  lemma ItemsFromNext(d: Value, i: nat, parent: string, items: Fields)
    requires d.Dict? && i < |d.fields|
    requires items + ItemsFrom(d, i, parent) == ItemsFrom(d, 0, parent)
    ensures items + Contribution(d, i, parent) + ItemsFrom(d, i + 1, parent) == ItemsFrom(d, 0, parent)
  {
    var c, rest := Contribution(d, i, parent), ItemsFrom(d, i + 1, parent);
    assert ItemsFrom(d, i, parent) == c + rest;
    assert items + c + rest == items + (c + rest);
  }

  /** `_flatten` as the source writes it: a loop extending a local list, recursing into nested dicts. */
  method Flatten(d: Value, parent: string) returns (r: Fields)
    requires d.Dict?
    ensures r == FlattenDict(d, parent)
    decreases d
  {
    var items: Fields := [];
    for i := 0 to |d.fields|
      invariant items + ItemsFrom(d, i, parent) == ItemsFrom(d, 0, parent)
    {
      var k, v := d.fields[i].0, d.fields[i].1;
      assert d.fields[i] in d.fields;
      var newKey := if parent != "" then parent + "_" + k else k;
      var piece: Fields;
      if v.Dict? {
        piece := Flatten(v, newKey);
      } else {
        piece := [(newKey, Leaf(v))];
      }
      assert piece == Contribution(d, i, parent);
      ItemsFromNext(d, i, parent, items);
      items := items + piece;
    }
    assert ItemsFrom(d, |d.fields|, parent) == [];
    assert items == ItemsFrom(d, 0, parent);
    assert FlattenDict(d, parent) == FromItems(items);
    r := FromItems(items);
  }

  /** Every item of the list has a scalar value. */
  predicate AllScalar(fs: Fields) {
    forall kv :: kv in fs ==> IsScalar(kv.1)
  }

  /** Items and flattened dicts hold only scalars: no dict, list or None survives. */
  lemma {:induction false} ItemsScalar(d: Value, i: nat, parent: string)
    requires d.Dict? && i <= |d.fields|
    ensures AllScalar(ItemsFrom(d, i, parent))
    decreases d, 2, |d.fields| - i
  {
    if i < |d.fields| {
      var v := d.fields[i].1;
      assert d.fields[i] in d.fields;
      if v.Dict? {
        FlattenScalar(v, NewKey(parent, d.fields[i].0));
      }
      ItemsScalar(d, i + 1, parent);
    }
  }

  lemma {:induction false} FlattenScalar(d: Value, parent: string)
    requires d.Dict?
    ensures AllScalar(FlattenDict(d, parent))
    decreases d, 3
  {
    ItemsScalar(d, 0, parent);
  }

  /** `flatten_meta` never yields a dict value, nor a list or None: every value is a str, int, float or bool. */
  lemma FlattenMetaScalar(meta: Fields)
    ensures AllScalar(FlattenMeta(meta))
    ensures DistinctKeys(FlattenMeta(meta))
  {
    FlattenScalar(Dict(meta), "");
  }

  /** Entry `j` of `d` contributes an item with key `key` to the items of `_flatten(d, parent)`. */
  predicate Contributes(d: Value, j: nat, parent: string, key: string)
    requires d.Dict? && j < |d.fields|
  {
    key in Keys(Contribution(d, j, parent))
  }

  /** The keys of the items from entry `i` on are the keys the entries from `i` on contribute. */
  lemma {:induction false} ItemsFromKeys(d: Value, i: nat, parent: string, key: string)
    requires d.Dict? && i <= |d.fields|
    ensures key in Keys(ItemsFrom(d, i, parent)) <==>
            exists j :: i <= j < |d.fields| && Contributes(d, j, parent, key)
    decreases |d.fields| - i
  {
    if i == |d.fields| {
      assert ItemsFrom(d, i, parent) == [];
    } else {
      var c, rest := Contribution(d, i, parent), ItemsFrom(d, i + 1, parent);
      assert ItemsFrom(d, i, parent) == c + rest;
      KeysAppend(c, rest);
      ItemsFromKeys(d, i + 1, parent, key);
      if key in Keys(c) {
        assert Contributes(d, i, parent, key);
      } else if key in Keys(rest) {
        var j :| i + 1 <= j < |d.fields| && Contributes(d, j, parent, key);
        assert i <= j;
      } else {
        forall j | i <= j < |d.fields| ensures !Contributes(d, j, parent, key) {
          if j == i {
            assert key !in Keys(c);
          }
        }
      }
    }
  }

  /**
   * Entry `j` of `d`, with key `k` and value `v`, yields the key `key` when
   * flattened under `parent`: a leaf yields exactly `NewKey(parent, k)`, a
   * nested dict yields the keys of its own flattening under that name.
   */
  predicate Yields(d: Value, j: nat, parent: string, key: string)
    requires d.Dict? && j < |d.fields|
  {
    var (k, v) := d.fields[j];
    if v.Dict? then key in Keys(FlattenDict(v, NewKey(parent, k))) else key == NewKey(parent, k)
  }

  lemma ContributesYields(d: Value, j: nat, parent: string, key: string)
    requires d.Dict? && j < |d.fields|
    ensures Contributes(d, j, parent, key) <==> Yields(d, j, parent, key)
  {
    var (k, v) := d.fields[j];
    if v.Dict? {
      assert Contribution(d, j, parent) == FlattenDict(v, NewKey(parent, k));
    } else {
      assert Contribution(d, j, parent) == [(NewKey(parent, k), Leaf(v))];
      assert Keys(Contribution(d, j, parent)) == {NewKey(parent, k)};
    }
  }

  /**
   * The key set of `_flatten(d, parent)`: exactly the keys its entries
   * yield, so a leaf `k` under a non-empty parent `p` is named `p_k`, a
   * top-level leaf keeps its name, and nothing else gives a key.
   */
  lemma FlattenKeys(d: Value, parent: string, key: string)
    requires d.Dict?
    ensures key in Keys(FlattenDict(d, parent)) <==>
            exists j :: 0 <= j < |d.fields| && Yields(d, j, parent, key)
  {
    ItemsFromKeys(d, 0, parent, key);
    assert Keys(FlattenDict(d, parent)) == Keys(ItemsFrom(d, 0, parent));
    forall j | 0 <= j < |d.fields|
      ensures Contributes(d, j, parent, key) <==> Yields(d, j, parent, key)
    {
      ContributesYields(d, j, parent, key);
    }
    if key in Keys(FlattenDict(d, parent)) {
      var j :| 0 <= j < |d.fields| && Contributes(d, j, parent, key);
      assert Yields(d, j, parent, key);
    }
  }

  /** A top-level entry whose value is not a dict keeps its name in the result. */
  lemma TopLevelKeyKept(meta: Fields, j: nat)
    requires j < |meta| && !meta[j].1.Dict?
    ensures meta[j].0 in Keys(FlattenMeta(meta))
  {
    assert Yields(Dict(meta), j, "", meta[j].0);
    FlattenKeys(Dict(meta), "", meta[j].0);
  }

  /** A leaf `k` in a dict nested under the top-level key `p` appears as `p_k`, when `p` is not empty. */
  lemma NestedKeyJoined(meta: Fields, j: nat, i: nat)
    requires j < |meta| && meta[j].1.Dict? && meta[j].0 != ""
    requires i < |meta[j].1.fields| && !meta[j].1.fields[i].1.Dict?
    ensures meta[j].0 + "_" + meta[j].1.fields[i].0 in Keys(FlattenMeta(meta))
  {
    var p, sub := meta[j].0, meta[j].1;
    var key := p + "_" + sub.fields[i].0;
    assert NewKey(p, sub.fields[i].0) == key;
    assert Yields(sub, i, p, key);
    FlattenKeys(sub, p, key);
    assert NewKey("", p) == p;
    assert Yields(Dict(meta), j, "", key);
    FlattenKeys(Dict(meta), "", key);
  }

  /** Appending an empty nested dict leaves the items from entry `i` on unchanged. */
  lemma {:induction false} EmptyNestedItems(fs: Fields, k: string, parent: string, i: nat)
    requires i <= |fs|
    ensures ItemsFrom(Dict(fs + [(k, Dict([]))]), i, parent) == ItemsFrom(Dict(fs), i, parent)
    decreases |fs| - i
  {
    if i == |fs| {
      EmptyNestedLast(fs, k, parent);
    } else {
      EmptyNestedItems(fs, k, parent, i + 1);
      EmptyNestedStep(fs, k, parent, i);
      GlueAppend(Contribution(Dict(fs), i, parent),
                 ItemsFrom(Dict(fs + [(k, Dict([]))]), i + 1, parent), ItemsFrom(Dict(fs), i + 1, parent),
                 ItemsFrom(Dict(fs + [(k, Dict([]))]), i, parent), ItemsFrom(Dict(fs), i, parent));
    }
  }

  /** The appended empty dict, the last entry, adds no item. */
  lemma EmptyNestedLast(fs: Fields, k: string, parent: string)
    ensures ItemsFrom(Dict(fs + [(k, Dict([]))]), |fs|, parent) == []
    ensures ItemsFrom(Dict(fs), |fs|, parent) == []
  {
    var e := Dict(fs + [(k, Dict([]))]);
    assert ItemsFrom(Dict([]), 0, NewKey(parent, k)) == [];
    assert Contribution(e, |fs|, parent) == FromItems([]);
    assert ItemsFrom(e, |fs| + 1, parent) == [];
  }

  /** Entry `i` before the appended one contributes the same with or without it. */
  lemma EmptyNestedStep(fs: Fields, k: string, parent: string, i: nat)
    requires i < |fs|
    ensures var e := Dict(fs + [(k, Dict([]))]);
      ItemsFrom(e, i, parent) == Contribution(Dict(fs), i, parent) + ItemsFrom(e, i + 1, parent)
    ensures ItemsFrom(Dict(fs), i, parent) == Contribution(Dict(fs), i, parent) + ItemsFrom(Dict(fs), i + 1, parent)
  {
    var d, e := Dict(fs), Dict(fs + [(k, Dict([]))]);
    assert e.fields[i] == d.fields[i];
    assert Contribution(e, i, parent) == Contribution(d, i, parent);
  }

  /** Equal lists behind the same prefix. */
  lemma GlueAppend(c: Fields, a: Fields, b: Fields, x: Fields, y: Fields)
    requires a == b && x == c + a && y == c + b
    ensures x == y
  {
  }

  /** An empty nested dict contributes nothing: the flattened result is the same without it. */
  lemma EmptyNestedContributesNothing(meta: Fields, k: string)
    ensures FlattenMeta(meta + [(k, Dict([]))]) == FlattenMeta(meta)
  {
    EmptyNestedItems(meta, k, "", 0);
  }

  /** On a key collision the later item wins: the result's value is the last one produced for that key. */
  lemma CollisionLastWins(meta: Fields, key: string)
    ensures Get(FlattenMeta(meta), key) == LastGet(ItemsFrom(Dict(meta), 0, ""), key)
  {
  }

  /** A concrete collision: the nested `a.b` comes after the top-level `a_b`, so its value wins. */
  lemma CollisionExample()
    ensures FlattenMeta([("a_b", Int(1)), ("a", Dict([("b", Int(2))]))]) == [("a_b", Int(2))]
  {
    CollisionItems();
    assert Update([], [("a_b", Int(1))]) == [("a_b", Int(1))];
    assert Replace([("a_b", Int(1))], "a_b", Int(2)) == [("a_b", Int(2))];
  }

  lemma CollisionItems()
    ensures ItemsFrom(Dict([("a_b", Int(1)), ("a", Dict([("b", Int(2))]))]), 0, "") == [("a_b", Int(1)), ("a_b", Int(2))]
  {
    var meta := [("a_b", Int(1)), ("a", Dict([("b", Int(2))]))];
    CollisionSecond();
    assert Contribution(Dict(meta), 0, "") == [("a_b", Int(1))];
  }

  /** The nested entry of the collision example contributes `a_b` with the nested value. */
  lemma CollisionSecond()
    ensures ItemsFrom(Dict([("a_b", Int(1)), ("a", Dict([("b", Int(2))]))]), 1, "") == [("a_b", Int(2))]
  {
    var meta := [("a_b", Int(1)), ("a", Dict([("b", Int(2))]))];
    CollisionNested();
    assert ItemsFrom(Dict(meta), 2, "") == [];
  }

  lemma CollisionNested()
    ensures Contribution(Dict([("a_b", Int(1)), ("a", Dict([("b", Int(2))]))]), 1, "") == [("a_b", Int(2))]
  {
    var meta := [("a_b", Int(1)), ("a", Dict([("b", Int(2))]))];
    assert meta[1] == ("a", Dict([("b", Int(2))]));
    assert NewKey("", "a") == "a";
    NestedCollision();
  }

  lemma NestedCollision()
    ensures FlattenDict(Dict([("b", Int(2))]), "a") == [("a_b", Int(2))]
  {
    var sub := Dict([("b", Int(2))]);
    assert ItemsFrom(sub, 1, "a") == [];
    assert NewKey("a", "b") == "a_b";
    assert Contribution(sub, 0, "a") == [("a_b", Int(2))];
    assert ItemsFrom(sub, 0, "a") == [("a_b", Int(2))];
    assert Keys([("a_b", Int(2))]) == {"a_b"};
  }

  /** The items of a flat dict whose values are all scalars are its own entries. */
  lemma {:induction false} ItemsOfFlat(fs: Fields, i: nat)
    requires i <= |fs| && AllScalar(fs)
    ensures ItemsFrom(Dict(fs), i, "") == fs[i..]
    decreases |fs| - i
  {
    if i < |fs| {
      assert fs[i] in fs;
      ItemsOfFlat(fs, i + 1);
      assert fs[i..] == [fs[i]] + fs[i + 1..];
    }
  }

  /** `flatten_meta` is idempotent: flattening a flattened dict gives it back unchanged. */
  lemma FlattenIdempotent(meta: Fields)
    ensures FlattenMeta(FlattenMeta(meta)) == FlattenMeta(meta)
  {
    var f := FlattenMeta(meta);
    FlattenMetaScalar(meta);
    ItemsOfFlat(f, 0);
    assert f[0..] == f;
    FromItemsDistinct(f);
  }
}
