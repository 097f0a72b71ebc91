/** JSON values as the pipeline's Python code receives them from `json.load`,
    and the insertion-ordered dictionaries (`dict`) it builds. */
module Json {
  import opened Text

  datatype Option<T> = None | Some(value: T)

  /** A dynamically typed record value. A float carries, besides its number,
      the text `str()` gives for it, which the model does not compute. */
  datatype Value =
    | Null
    | Bool(b: bool)
    | Int(i: int)
    | Float(x: real, repr: string)
    | Str(s: string)
    | Array(items: seq<Value>)
    | Object(fields: Dict<Value>)

  /** A Python `dict` with string keys: its entries in insertion order. */
  type Dict<V> = seq<(string, V)>

  /** Neither a list nor a dict. */
  predicate IsScalar(v: Value)
  {
    !v.Array? && !v.Object?
  }

  /** Python's `str(value)` on a scalar. */
  function Stringify(v: Value): string
    requires IsScalar(v)
  {
    match v
    case Null => "None"
    case Bool(b) => if b then "True" else "False"
    case Int(i) => IntToString(i)
    case Float(_, repr) => repr
    case Str(s) => s
  }

  /** The keys of a dictionary, in insertion order. */
  function Keys<V>(d: Dict<V>): (ks: seq<string>)
    ensures |ks| == |d| && forall i :: 0 <= i < |d| ==> ks[i] == d[i].0
  {
    if d == [] then [] else [d[0].0] + Keys(d[1..])
  }

  /** No key occurs twice, as in every Python dict. */
  predicate IsDict<V>(d: Dict<V>)
  {
    Distinct(Keys(d))
  }

  /** `d.get(k)`. */
  function Lookup<V>(d: Dict<V>, k: string): (r: Option<V>)
    ensures r.None? <==> k !in Keys(d)
    ensures r.Some? ==> (k, r.value) in d
  {
    if d == [] then None
    else if d[0].0 == k then Some(d[0].1)
    else
      Lookup(d[1..], k)
  }

  /** `d[k] = v`: an existing key keeps its position and takes the new value,
      a new key goes at the end. */
  function Put<V>(d: Dict<V>, k: string, v: V): (r: Dict<V>)
    ensures Lookup(r, k) == Some(v)
  {
    if d == [] then [(k, v)]
    else if d[0].0 == k then
      var r := [(k, v)] + d[1..];
      assert r[1..] == d[1..];
      r
    else
      var tail := Put(d[1..], k, v);
      var r := [d[0]] + tail;
      assert r[1..] == tail;
      r
  }

  /** Assigning to an existing key leaves the key order as it was. */
  lemma {:induction false} PutKeysPresent<V>(d: Dict<V>, k: string, v: V)
    requires k in Keys(d)
    ensures Keys(Put(d, k, v)) == Keys(d)
  {
    if d[0].0 != k {
      PutKeysPresent(d[1..], k, v);
      assert Put(d, k, v)[1..] == Put(d[1..], k, v);
    } else {
      assert Put(d, k, v)[1..] == d[1..];
    }
  }

  /** Assigning to a new key appends it to the key order. */
  lemma {:induction false} PutKeysAbsent<V>(d: Dict<V>, k: string, v: V)
    requires k !in Keys(d)
    ensures Keys(Put(d, k, v)) == Keys(d) + [k]
  {
    if d != [] {
      assert k != d[0].0 && k !in Keys(d[1..]);
      PutKeysAbsent(d[1..], k, v);
      assert Put(d, k, v)[1..] == Put(d[1..], k, v);
    }
  }

  /** Assignment keeps the key order and appends a new key. */
  lemma PutKeys<V>(d: Dict<V>, k: string, v: V)
    ensures Keys(Put(d, k, v)) == if k in Keys(d) then Keys(d) else Keys(d) + [k]
  {
    if k in Keys(d) {
      PutKeysPresent(d, k, v);
    } else {
      PutKeysAbsent(d, k, v);
    }
  }

  /** Assignment adds no pair but `(k, v)`. */
  lemma {:induction false} PutElements<V>(d: Dict<V>, k: string, v: V)
    ensures forall e :: e in Put(d, k, v) ==> e in d || e == (k, v)
  {
    if d != [] && d[0].0 != k {
      PutElements(d[1..], k, v);
      assert Put(d, k, v) == [d[0]] + Put(d[1..], k, v);
    } else if d != [] {
      assert Put(d, k, v) == [(k, v)] + d[1..];
    }
  }

  /** Assignment leaves every other key's value as it was. */
  lemma {:induction false} PutOthers<V>(d: Dict<V>, k: string, v: V, k': string)
    requires k' != k
    ensures Lookup(Put(d, k, v), k') == Lookup(d, k')
  {
    if d != [] && d[0].0 != k {
      PutOthers(d[1..], k, v, k');
      var r := Put(d, k, v);
      assert r[1..] == Put(d[1..], k, v);
    } else if d != [] {
      assert Put(d, k, v)[1..] == d[1..];
    }
  }

  /** Lookup looks at the first pair, then at the rest. */
  lemma LookupCons<V>(k: string, v: V, rest: Dict<V>)
    ensures forall key :: Lookup([(k, v)] + rest, key) == if k == key then Some(v) else Lookup(rest, key)
  {
    assert ([(k, v)] + rest)[1..] == rest;
  }

  /** Assignment keeps a dictionary free of repeated keys. */
  lemma PutIsDict<V>(d: Dict<V>, k: string, v: V)
    requires IsDict(d)
    ensures IsDict(Put(d, k, v))
  {
    PutKeys(d, k, v);
    if k !in Keys(d) {
      DistinctAppend(Keys(d), k);
    }
  }

  /** The value of the last pair whose key is `k`. */
  function LastValue<V>(ps: seq<(string, V)>, k: string): Option<V>
  {
    if ps == [] then None
    else if ps[|ps| - 1].0 == k then Some(ps[|ps| - 1].1)
    else LastValue(ps[..|ps| - 1], k)
  }

  /** The pair `LastValue` answers with is the last pair with the key. */
  lemma {:induction false} LastValueIsLast<V>(ps: seq<(string, V)>, k: string, i: nat)
    requires i < |ps| && ps[i].0 == k
    requires forall j :: i < j < |ps| ==> ps[j].0 != k
    ensures LastValue(ps, k) == Some(ps[i].1)
  {
    if i < |ps| - 1 {
      LastValueIsLast(ps[..|ps| - 1], k, i);
    }
  }

  /** `LastValue` finds a value exactly for the keys that occur. */
  lemma {:induction false} LastValueFound<V>(ps: seq<(string, V)>, k: string)
    ensures LastValue(ps, k).None? <==> k !in Keys(ps)
    ensures LastValue(ps, k).Some? ==> (k, LastValue(ps, k).value) in ps
  {
    if ps != [] {
      var init := ps[..|ps| - 1];
      assert ps == init + [ps[|ps| - 1]];
      KeysAppend(init, ps[|ps| - 1]);
      LastValueFound(init, k);
    }
  }

  /** In a dictionary the first and the last pair with a key are the same. */
  lemma LastValueOfDict<V>(d: Dict<V>, k: string)
    requires IsDict(d)
    ensures LastValue(d, k) == Lookup(d, k)
  {
    LastValueFound(d, k);
    if LastValue(d, k).Some? {
      var v := LastValue(d, k).value;
      var w := Lookup(d, k).value;
      var i :| 0 <= i < |d| && d[i] == (k, v);
      var j :| 0 <= j < |d| && d[j] == (k, w);
      assert Keys(d)[i] == Keys(d)[j];
    }
  }

  /** The elements of `s`, each once, in order of first occurrence. */
  function FirstOccurrences(s: seq<string>): (r: seq<string>)
    ensures Distinct(r)
    ensures forall x :: x in r <==> x in s
    ensures |r| <= |s|
  {
    if s == [] then []
    else
      var r := FirstOccurrences(s[..|s| - 1]);
      if s[|s| - 1] in r then r else r + [s[|s| - 1]]
  }

  lemma {:induction false} KeysAppend<V>(d: Dict<V>, e: (string, V))
    ensures Keys(d + [e]) == Keys(d) + [e.0]
  {
    if d != [] {
      assert (d + [e])[1..] == d[1..] + [e];
      KeysAppend(d[1..], e);
    }
  }

  /** `{k: v for (k, v) in ps}`: a dictionary built from pairs in order. The
      keys come in order of first occurrence. */
  function FromPairs<V>(ps: seq<(string, V)>): (r: Dict<V>)
    ensures IsDict(r)
    ensures Keys(r) == FirstOccurrences(Keys(ps))
    ensures |r| <= |ps|
    ensures forall e :: e in r ==> e in ps
  {
    if ps == [] then []
    else
      var init := ps[..|ps| - 1];
      assert ps == init + [ps[|ps| - 1]];
      KeysAppend(init, ps[|ps| - 1]);
      assert Keys(ps)[..|ps| - 1] == Keys(init);
      PutIsDict(FromPairs(init), ps[|ps| - 1].0, ps[|ps| - 1].1);
      PutKeys(FromPairs(init), ps[|ps| - 1].0, ps[|ps| - 1].1);
      PutElements(FromPairs(init), ps[|ps| - 1].0, ps[|ps| - 1].1);
      Put(FromPairs(init), ps[|ps| - 1].0, ps[|ps| - 1].1)
  }

  /** In a dictionary built from pairs, the later pair with a key wins. */
  lemma {:induction false} FromPairsLookup<V>(ps: seq<(string, V)>, k: string)
    ensures Lookup(FromPairs(ps), k) == LastValue(ps, k)
  {
    if ps != [] {
      var init := ps[..|ps| - 1];
      FromPairsLookup(init, k);
      if ps[|ps| - 1].0 != k {
        PutOthers(FromPairs(init), ps[|ps| - 1].0, ps[|ps| - 1].1, k);
      }
    }
  }
}
