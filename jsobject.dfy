/** A plain JavaScript object (`{}`) used as a dictionary from strings to
    values: its own keys in the order they were first assigned, and the order
    in which `Object.values` enumerates them (ECMAScript
    OrdinaryOwnPropertyKeys: array-index keys in ascending numeric order
    first, then every other string key in the order it was created). Every
    key, "__proto__" included, is an ordinary own key, as in an object without
    a prototype; on a `{}`, assigning "__proto__" would call the prototype
    setter instead. */
module JsObject {
  import opened Cells

  datatype Obj<V> = Obj(keys: seq<string>, vals: map<string, V>)

  /** Each own key is listed once, and the listed keys are those of the map. */
  ghost predicate Valid<V>(o: Obj<V>) {
    && (forall i, j | 0 <= i < j < |o.keys| :: o.keys[i] != o.keys[j])
    && (forall k :: k in o.vals <==> k in o.keys)
  }

  /** `{}` */
  function Empty<V>(): (o: Obj<V>)
    ensures Valid(o) && o.keys == []
  {
    Obj([], map[])
  }

  /** `o[k] = v` as an own-property assignment: a new key goes to the end of
      the creation order; assigning an existing key keeps its place. */
  function Put<V>(o: Obj<V>, k: string, v: V): (o': Obj<V>)
    requires Valid(o)
    ensures Valid(o')
    ensures o'.vals == o.vals[k := v]
    ensures o'.keys == if k in o.vals then o.keys else o.keys + [k]
  {
    if k in o.vals then Obj(o.keys, o.vals[k := v]) else Obj(o.keys + [k], o.vals[k := v])
  }

  /** Assigning a key twice leaves what the second assignment wrote. */
  lemma PutTwice<V>(o: Obj<V>, k: string, v1: V, v2: V)
    requires Valid(o)
    ensures Put(Put(o, k, v1), k, v2) == Put(o, k, v2)
  {
    assert o.vals[k := v1][k := v2] == o.vals[k := v2];
  }

  /** The largest array index, 2^32 - 2. */
  const MaxArrayIndex: nat := 4294967294

  /** A canonical decimal numeral (no sign, no leading zero) of at most
      `MaxArrayIndex`: the keys objects enumerate before all others. */
  predicate IsArrayIndex(k: string) {
    k != [] && AllDigits(k) && (k[0] == '0' ==> |k| == 1) && DecValue(k) <= MaxArrayIndex
  }

  /** A key made of a letter first is never an array index. */
  lemma LetterKeyNotIndex(k: string)
    requires k != [] && IsUpper(k[0])
    ensures !IsArrayIndex(k)
  {
  }

  /** The array-index keys of `ks`, in their order in `ks`. */
  function IndexKeys(ks: seq<string>): (r: seq<string>)
    ensures |r| <= |ks|
    ensures forall k | k in r :: IsArrayIndex(k)
    decreases |ks|
  {
    if ks == [] then []
    else (if IsArrayIndex(ks[0]) then [ks[0]] else []) + IndexKeys(ks[1..])
  }

  /** The other keys of `ks`, in their order in `ks`. */
  function NamedKeys(ks: seq<string>): (r: seq<string>)
    ensures forall k | k in r :: !IsArrayIndex(k)
    decreases |ks|
  {
    if ks == [] then []
    else (if IsArrayIndex(ks[0]) then [] else [ks[0]]) + NamedKeys(ks[1..])
  }

  /** Splitting the keys into the two groups loses and adds nothing. */
  lemma {:induction false} SplitKeys(ks: seq<string>)
    ensures multiset(IndexKeys(ks)) + multiset(NamedKeys(ks)) == multiset(ks)
    decreases |ks|
  {
    if ks != [] {
      SplitKeys(ks[1..]);
      assert ks == [ks[0]] + ks[1..];
    }
  }

  /** With no array-index key, the named keys are all the keys, in order. */
  lemma {:induction false} NoIndexKeys(ks: seq<string>)
    requires forall k | k in ks :: !IsArrayIndex(k)
    ensures IndexKeys(ks) == [] && NamedKeys(ks) == ks
    decreases |ks|
  {
    if ks != [] {
      NoIndexKeys(ks[1..]);
      assert ks == [ks[0]] + ks[1..];
    }
  }

  /** The numeric value of a key; only compared for array-index keys. */
  function KeyValue(k: string): nat {
    if AllDigits(k) then DecValue(k) else 0
  }

  /** Keys in ascending numeric order. */
  predicate Ascending(s: seq<string>) {
    forall i | 0 < i < |s| :: KeyValue(s[i - 1]) <= KeyValue(s[i])
  }

  /** Array-index keys in ascending numeric order. */
  predicate IndexAscending(s: seq<string>) {
    (forall i | 0 <= i < |s| :: IsArrayIndex(s[i])) && Ascending(s)
  }

  /** Insert a key into a list ascending by numeric value, before the first
      key that is not smaller. */
  function InsertIndex(k: string, s: seq<string>): (r: seq<string>)
    ensures |r| == |s| + 1
    ensures Ascending(s) ==> Ascending(r)
    ensures r[0] == k || (s != [] && r[0] == s[0])
    decreases |s|
  {
    if s == [] then [k]
    else if KeyValue(k) <= KeyValue(s[0]) then [k] + s
    else [s[0]] + InsertIndex(k, s[1..])
  }

  /** Inserting adds the key and loses nothing. */
  lemma {:induction false} InsertIndexPerm(k: string, s: seq<string>)
    ensures multiset(InsertIndex(k, s)) == multiset(s) + multiset{k}
    decreases |s|
  {
    if s != [] && KeyValue(k) > KeyValue(s[0]) {
      var t := InsertIndex(k, s[1..]);
      InsertIndexPerm(k, s[1..]);
      assert InsertIndex(k, s) == [s[0]] + t;
      assert s == [s[0]] + s[1..];
    }
  }

  /** Insertion sort of array-index keys by their numeric value. */
  function SortIndexKeys(s: seq<string>): (r: seq<string>)
    requires forall k | k in s :: IsArrayIndex(k)
    ensures multiset(r) == multiset(s)
    ensures IndexAscending(r)
    decreases |s|
  {
    if s == [] then []
    else
      assert s == [s[0]] + s[1..];
      var t := SortIndexKeys(s[1..]);
      InsertIndexPerm(s[0], t);
      var r := InsertIndex(s[0], t);
      assert forall i | 0 <= i < |r| :: r[i] in multiset(r);
      r
  }

  /** The order `Object.values(o)` visits the own keys of `o` in. */
  function OwnKeys<V>(o: Obj<V>): (r: seq<string>)
    ensures multiset(r) == multiset(o.keys)
    ensures |r| == |o.keys|
  {
    SplitKeys(o.keys);
    var r := SortIndexKeys(IndexKeys(o.keys)) + NamedKeys(o.keys);
    assert |multiset(r)| == |multiset(o.keys)|;
    r
  }

  /** `Object.values` visits a permutation of the own keys: the array-index
      keys first, in ascending numeric order, then the other keys in creation
      order. */
  lemma OwnKeysOrder<V>(o: Obj<V>)
    ensures |OwnKeys(o)| == |o.keys|
    ensures |IndexKeys(o.keys)| <= |o.keys|
    ensures IndexAscending(OwnKeys(o)[..|IndexKeys(o.keys)|])
    ensures OwnKeys(o)[|IndexKeys(o.keys)|..] == NamedKeys(o.keys)
  {
    var r := OwnKeys(o);
    assert |multiset(r)| == |multiset(o.keys)|;
    var sorted := SortIndexKeys(IndexKeys(o.keys));
    assert r[..|IndexKeys(o.keys)|] == sorted;
  }

  /** Without array-index keys, `Object.values` follows creation order. */
  lemma OwnKeysCreationOrder<V>(o: Obj<V>)
    requires forall k | k in o.keys :: !IsArrayIndex(k)
    ensures OwnKeys(o) == o.keys
  {
    NoIndexKeys(o.keys);
  }

  /** `Object.values(o)`. */
  function Values<V>(o: Obj<V>): (r: seq<V>)
    requires Valid(o)
    ensures |r| == |o.keys|
    ensures forall i | 0 <= i < |r| :: OwnKeys(o)[i] in o.vals && r[i] == o.vals[OwnKeys(o)[i]]
  {
    var ks := OwnKeys(o);
    assert |ks| == |o.keys| by {
      assert |multiset(ks)| == |multiset(o.keys)|;
    }
    assert forall i | 0 <= i < |ks| :: ks[i] in o.vals by {
      forall i | 0 <= i < |ks| ensures ks[i] in o.vals {
        assert ks[i] in multiset(ks);
      }
    }
    seq(|ks|, i requires 0 <= i < |ks| => o.vals[ks[i]])
  }

  lemma ExampleKeyValues()
    ensures IsArrayIndex("10") && KeyValue("10") == 10
    ensures IsArrayIndex("2") && KeyValue("2") == 2
    ensures !IsArrayIndex("L1")
  {
    var ten, two, l1 := "10", "2", "L1";
    assert ten[0] == '1' && ten[1] == '0' && two[0] == '2' && l1[0] == 'L';
    assert ten[..1] == "1";
    assert DecValue(ten[..1]) == 1;
  }

  lemma ExampleSplit()
    ensures IndexKeys(["10", "2", "L1"]) == ["10", "2"]
    ensures NamedKeys(["10", "2", "L1"]) == ["L1"]
  {
    ExampleKeyValues();
    var ks := ["10", "2", "L1"];
    var none: seq<string> := [];
    assert ks[1..] == ["2", "L1"] && ks[1..][1..] == ["L1"] && ["L1"][1..] == none;
    assert IndexKeys(["L1"]) == none && NamedKeys(["L1"]) == ["L1"];
    assert IndexKeys(["2", "L1"]) == ["2"] && NamedKeys(["2", "L1"]) == ["L1"];
  }

  lemma ExampleSort()
    ensures IsArrayIndex("10") && IsArrayIndex("2") && SortIndexKeys(["10", "2"]) == ["2", "10"]
  {
    ExampleKeyValues();
    assert ["10", "2"][1..] == ["2"];
    assert SortIndexKeys(["2"]) == ["2"];
    assert InsertIndex("10", ["2"]) == ["2", "10"];
  }

  /** Assigning a key the object lacks appends it to the creation order. */
  lemma PutNewKey<V>(o: Obj<V>, k: string, v: V)
    requires Valid(o) && k !in o.keys
    ensures Put(o, k, v).keys == o.keys + [k]
  {
  }

  /** Three assignments of new keys list the keys in assignment order. */
  lemma ExamplePuts()
    ensures Put(Put(Put(Empty<int>(), "10", 1), "2", 2), "L1", 3).keys == ["10", "2", "L1"]
  {
    var o1 := Put(Empty<int>(), "10", 1);
    PutNewKey(Empty<int>(), "10", 1);
    assert "2" != "10" by { assert |"2"| != |"10"|; }
    PutNewKey(o1, "2", 2);
    var o2 := Put(o1, "2", 2);
    assert "L1" != "10" by { assert "L1"[0] != "10"[0]; }
    assert "L1" != "2" by { assert |"L1"| != |"2"|; }
    PutNewKey(o2, "L1", 3);
  }

  /** Any object whose keys were created as "10", "2", "L1" enumerates them
      as "2", "10", "L1". */
  lemma ExampleOwnKeys<V>(o: Obj<V>)
    requires o.keys == ["10", "2", "L1"]
    ensures OwnKeys(o) == ["2", "10", "L1"]
  {
    ExampleSplit();
    ExampleSort();
  }

  /** Sections "10", "2" and "L1", created in that order, are enumerated as
      "2", "10", "L1": numeric keys first, by value, then the rest. */
  lemma NumericKeysFirst()
    ensures OwnKeys(Put(Put(Put(Empty<int>(), "10", 1), "2", 2), "L1", 3)) == ["2", "10", "L1"]
  {
    ExamplePuts();
    ExampleOwnKeys(Put(Put(Put(Empty<int>(), "10", 1), "2", 2), "L1", 3));
  }
}
