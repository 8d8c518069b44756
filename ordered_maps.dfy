/**
  Insertion-ordered maps, the shape of a script's attribute bag and of its
  OrderedDict of atoms: assigning to a new name appends it, assigning to a
  name already present replaces the value where it stands.
 */
module OrderedMaps {
  import opened Outcomes

  datatype Entry<V> = Entry(key: string, val: V)

  /** The names in order. */
  function Keys<V>(m: seq<Entry<V>>): (ks: seq<string>)
    ensures |ks| == |m|
    ensures forall i | 0 <= i < |m| :: ks[i] == m[i].key
  {
    if m == [] then [] else [m[0].key] + Keys(m[1..])
  }

  predicate Distinct(ks: seq<string>) {
    forall i, j | 0 <= i < j < |ks| :: ks[i] != ks[j]
  }

  /** The value stored under k (the first entry with that name). */
  function Get<V>(m: seq<Entry<V>>, k: string): (r: Option<V>)
    ensures r.Some? <==> k in Keys(m)
  {
    if m == [] then None else if m[0].key == k then Some(m[0].val) else Get(m[1..], k)
  }

  /** setattr / d[k] = v: overwrite in place, or append a new last entry. */
  function Put<V>(m: seq<Entry<V>>, k: string, v: V): (r: seq<Entry<V>>)
    ensures Keys(r) == if k in Keys(m) then Keys(m) else Keys(m) + [k]
    ensures Get(r, k) == Some(v)
    ensures forall k' | k' != k :: Get(r, k') == Get(m, k')
  {
    if m == [] then [Entry(k, v)]
    else if m[0].key == k then [Entry(k, v)] + m[1..]
    else [m[0]] + Put(m[1..], k, v)
  }

  lemma {:induction false} KeysAppend<V>(m: seq<Entry<V>>, n: seq<Entry<V>>)
    ensures Keys(m + n) == Keys(m) + Keys(n)
  {
  }

  lemma KeysCons<V>(m: seq<Entry<V>>)
    requires m != []
    ensures Keys(m) == [m[0].key] + Keys(m[1..])
  {
  }

  /** Putting keeps names unique. */
  lemma {:induction false} PutDistinct<V>(m: seq<Entry<V>>, k: string, v: V)
    requires Distinct(Keys(m))
    ensures Distinct(Keys(Put(m, k, v)))
  {
    var ks := Keys(m);
    if k !in ks {
      var ks' := ks + [k];
      assert Keys(Put(m, k, v)) == ks';
      forall i, j | 0 <= i < j < |ks'| ensures ks'[i] != ks'[j] {
        assert ks'[i] == ks[i];
        if j == |ks| {
          assert ks[i] in ks;
        } else {
          assert ks'[j] == ks[j];
        }
      }
    }
  }

  /** The names before the last of a list of distinct names are distinct and do not include the last. */
  lemma DistinctInit(ks: seq<string>)
    requires ks != [] && Distinct(ks)
    ensures Distinct(ks[..|ks| - 1]) && ks[|ks| - 1] !in ks[..|ks| - 1]
    ensures ks == ks[..|ks| - 1] + [ks[|ks| - 1]]
  {
    var pre := ks[..|ks| - 1];
    forall i, j | 0 <= i < j < |pre| ensures pre[i] != pre[j] {
      assert pre[i] == ks[i] && pre[j] == ks[j];
    }
    forall i | 0 <= i < |pre| ensures pre[i] != ks[|ks| - 1] {
      assert pre[i] == ks[i];
    }
    SplitLast(ks);
  }

  lemma SplitLast<T>(s: seq<T>)
    requires s != []
    ensures s == s[..|s| - 1] + [s[|s| - 1]]
  {
  }

  /** A new name goes to the end and nothing before it moves. */
  lemma {:induction false} PutFresh<V>(m: seq<Entry<V>>, k: string, v: V)
    requires k !in Keys(m)
    ensures Put(m, k, v) == m + [Entry(k, v)]
  {
    if m != [] {
      KeysCons(m);
      PutFresh(m[1..], k, v);
      ConsAppend(m, Entry(k, v));
    }
  }

  lemma ConsAppend<T>(s: seq<T>, x: T)
    requires s != []
    ensures [s[0]] + (s[1..] + [x]) == s + [x]
  {
    assert s == [s[0]] + s[1..];
  }

  /** A name already present keeps its position; only its value changes. */
  lemma {:induction false} PutExisting<V>(m: seq<Entry<V>>, i: nat, v: V)
    requires i < |m| && Distinct(Keys(m))
    ensures Put(m, m[i].key, v) == m[i := Entry(m[i].key, v)]
  {
    var k := m[i].key;
    if i == 0 {
      assert Put(m, k, v) == [Entry(k, v)] + m[1..];
      UpdateHead(m, Entry(k, v));
    } else {
      var rest := m[1..];
      assert Keys(m)[0] != Keys(m)[i];
      assert Distinct(Keys(rest)) by {
        forall a, b | 0 <= a < b < |rest| ensures Keys(rest)[a] != Keys(rest)[b] {
          assert Keys(m)[a + 1] != Keys(m)[b + 1];
        }
      }
      assert rest[i - 1].key == k;
      PutExisting(rest, i - 1, v);
      assert Put(m, k, v) == [m[0]] + rest[i - 1 := Entry(k, v)];
      UpdateTail(m, i, Entry(k, v));
    }
  }

  lemma UpdateHead<T>(s: seq<T>, x: T)
    requires s != []
    ensures s[0 := x] == [x] + s[1..]
  {
  }

  /** Replacing the element just after a prefix of length j extends the prefix by it. */
  lemma SetAtSeam<T>(a: seq<T>, m: seq<T>, j: nat, x: T)
    requires |a| == j < |m|
    ensures (a + m[j..])[j := x] == (a + [x]) + m[j + 1..]
  {
  }

  /** A suffix of the list without its last element, with that element put back. */
  lemma SuffixOfInit<T>(m: seq<T>, j: nat)
    requires j < |m|
    ensures m[..|m| - 1][j..] + [m[|m| - 1]] == m[j..]
  {
  }

  lemma NoSuffix<T>(a: seq<T>, s: seq<T>)
    ensures a + s[|s|..] == a
  {
  }

  lemma UpdateTail<T>(s: seq<T>, i: nat, x: T)
    requires 0 < i < |s|
    ensures s[i := x] == [s[0]] + s[1..][i - 1 := x]
  {
  }

  /** Putting the value a name already has changes nothing. */
  lemma {:induction false} PutSame<V>(m: seq<Entry<V>>, k: string, v: V)
    requires Get(m, k) == Some(v)
    ensures Put(m, k, v) == m
  {
    var rest := m[1..];
    assert m == [m[0]] + rest;
    if m[0].key == k {
      assert m[0] == Entry(k, v);
      assert Put(m, k, v) == [Entry(k, v)] + rest;
    } else {
      PutSame(rest, k, v);
      assert Put(m, k, v) == [m[0]] + Put(rest, k, v);
    }
  }
}
