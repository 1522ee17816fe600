/**
 * A Python dictionary as the export step builds one with a comprehension:
 * keys kept in the order of their first insertion, each key mapped to the
 * value written last.
 */
module OrderedDict {

  datatype Dict<V> = Dict(keys: seq<string>, entries: map<string, V>)

  predicate Distinct(s: seq<string>) {
    forall i, j :: 0 <= i < j < |s| ==> s[i] != s[j]
  }

  /** The dictionary's invariant: each key once in `keys`, and exactly the keys of `entries`. */
  ghost predicate Valid<V>(d: Dict<V>) {
    Distinct(d.keys) && (forall k :: k in d.entries <==> k in d.keys)
  }

  const Empty: Dict<string> := Dict([], map[])

  /** `d[k] = v`: a new key goes to the end, an existing key keeps its place. */
  function Insert<V>(d: Dict<V>, k: string, v: V): (d': Dict<V>)
    requires Valid(d)
    ensures Valid(d')
    ensures d'.entries == d.entries[k := v]
    ensures d'.keys == if k in d.entries then d.keys else d.keys + [k]
  {
    if k in d.entries then Dict(d.keys, d.entries[k := v])
    else Dict(d.keys + [k], d.entries[k := v])
  }

  /** `{name: value for name, value in zip(names, values)}`: one insertion per pair, in order. */
  function FromPairs(names: seq<string>, values: seq<string>): (d: Dict<string>)
    requires |names| == |values|
    ensures Valid(d)
    ensures forall k :: k in d.entries <==> k in names
  {
    if names == [] then Empty
    else
      var n := |names| - 1;
      assert names == names[..n] + [names[n]];
      Insert(FromPairs(names[..n], values[..n]), names[n], values[n])
  }

  /** `d.items()`: the pairs in key order. */
  function Items<V>(d: Dict<V>): seq<(string, V)>
    requires Valid(d)
  {
    seq(|d.keys|, i requires 0 <= i < |d.keys| => (d.keys[i], d.entries[d.keys[i]]))
  }

  /** With distinct names the dictionary keeps every name in list order with its own value. */
  lemma {:induction false} FromDistinctPairs(names: seq<string>, values: seq<string>)
    requires |names| == |values| && Distinct(names)
    ensures FromPairs(names, values).keys == names
    ensures forall i :: 0 <= i < |names| ==> FromPairs(names, values).entries[names[i]] == values[i]
  {
    if names != [] {
      var n := |names| - 1;
      var d0 := FromPairs(names[..n], values[..n]);
      FromDistinctPairs(names[..n], values[..n]);
      assert names[n] !in names[..n];
      assert names[n] !in d0.entries;
      var d := Insert(d0, names[n], values[n]);
      assert d == FromPairs(names, values);
      assert d.keys == names[..n] + [names[n]] == names;
      forall i | 0 <= i < |names|
        ensures d.entries[names[i]] == values[i]
      {
        if i < n {
          assert names[i] == names[..n][i] != names[n];
          assert d.entries[names[i]] == d0.entries[names[..n][i]] == values[..n][i];
        }
      }
    }
  }

  /** Every value the dictionary holds is one of the values given. */
  lemma {:induction false} FromPairsValue(names: seq<string>, values: seq<string>, k: string)
    requires |names| == |values| && k in FromPairs(names, values).entries
    ensures FromPairs(names, values).entries[k] in values
  {
    var n := |names| - 1;
    if k != names[n] {
      FromPairsValue(names[..n], values[..n], k);
      assert values[..n] <= values;
    }
  }

  /** When a name repeats, the dictionary holds the value paired with its last occurrence. */
  lemma {:induction false} LastValueWins(names: seq<string>, values: seq<string>, i: nat)
    requires |names| == |values| && i < |names|
    requires names[i] !in names[i + 1..]
    ensures FromPairs(names, values).entries[names[i]] == values[i]
  {
    var n := |names| - 1;
    if i < n {
      assert names[i + 1..] == names[..n][i + 1..] + [names[n]];
      LastValueWins(names[..n], values[..n], i);
    }
  }

  /** The items of a dictionary built from distinct names are the zipped pairs. */
  lemma ItemsOfDistinctPairs(names: seq<string>, values: seq<string>)
    requires |names| == |values| && Distinct(names)
    ensures |Items(FromPairs(names, values))| == |names|
    ensures forall i :: 0 <= i < |names| ==> Items(FromPairs(names, values))[i] == (names[i], values[i])
  {
    FromDistinctPairs(names, values);
  }
}
