/** JavaScript `Record<string, V>` objects as ordered association lists.
    Iteration order (`Object.keys`, `Object.values`) is insertion order: a
    key that is written again keeps its first position, a new key goes last.
    The assignment algorithms depend on that order, so the model keeps it. */
module OrderedMap {
  import opened Common

  predicate UniqueKeys<K(==), V>(m: seq<(K, V)>) {
    forall i, j :: 0 <= i < j < |m| ==> m[i].0 != m[j].0
  }

  /** An object literal: a sequence of entries, no key twice. */
  type OMap<K(==), V> = m: seq<(K, V)> | UniqueKeys(m) witness []

  /** `Object.keys(m)`. */
  function Keys<K(==), V>(m: OMap<K, V>): (ks: seq<K>)
    ensures |ks| == |m|
    ensures forall i :: 0 <= i < |m| ==> ks[i] == m[i].0
    ensures NoDup(ks)
  {
    seq(|m|, i requires 0 <= i < |m| => m[i].0)
  }

  /** `Object.values(m)`. */
  function Values<K(==), V>(m: OMap<K, V>): (vs: seq<V>)
    ensures |vs| == |m|
    ensures forall i :: 0 <= i < |m| ==> vs[i] == m[i].1
  {
    seq(|m|, i requires 0 <= i < |m| => m[i].1)
  }

  /** `m[k]`, `None` standing for `undefined`. */
  function Get<K(==), V>(m: OMap<K, V>, k: K): (r: Option<V>)
    ensures r.Some? <==> k in Keys(m)
    decreases |m|
  {
    if |m| == 0 then None
    else if m[0].0 == k then Some(m[0].1)
    else
      assert Keys(m) == [m[0].0] + Keys(m[1..]);
      Get(m[1..], k)
  }

  /** `Get` finds the value stored with the key, wherever it sits. */
  lemma {:induction false} GetEntry<K, V>(m: OMap<K, V>, k: K)
    ensures Get(m, k).Some? ==> exists i :: 0 <= i < |m| && m[i] == (k, Get(m, k).value)
    ensures forall i :: 0 <= i < |m| && m[i].0 == k ==> Get(m, k) == Some(m[i].1)
    decreases |m|
  {
    if |m| > 0 && m[0].0 != k {
      GetEntry(m[1..], k);
      assert forall i :: 1 <= i < |m| ==> m[i] == m[1..][i - 1];
      if Get(m, k).Some? {
        var i :| 0 <= i < |m[1..]| && m[1..][i] == (k, Get(m, k).value);
        assert m[i + 1] == (k, Get(m, k).value);
      }
    }
  }

  /** The position of key `k`. */
  function IndexOf<K(==), V>(m: OMap<K, V>, k: K): (i: nat)
    requires k in Keys(m)
    ensures i < |m| && m[i].0 == k
    decreases |m|
  {
    if m[0].0 == k then 0
    else
      assert Keys(m[1..]) == Keys(m)[1..];
      1 + IndexOf(m[1..], k)
  }

  /** `{ ...m, [k]: v }`: overwrite in place, or append a new key. */
  function Put<K(==), V>(m: OMap<K, V>, k: K, v: V): (r: OMap<K, V>)
    ensures k in Keys(m) ==> |r| == |m| && Keys(r) == Keys(m)
    ensures k !in Keys(m) ==> r == m + [(k, v)]
    ensures forall i :: 0 <= i < |m| && m[i].0 != k ==> r[i] == m[i]
    ensures forall i :: 0 <= i < |m| && m[i].0 == k ==> r[i] == (k, v)
  {
    if k in Keys(m) then
      var i := IndexOf(m, k);
      var r := m[i := (k, v)];
      assert forall j :: 0 <= j < |m| ==> r[j].0 == m[j].0;
      assert Keys(r) == Keys(m);
      r
    else
      var r := m + [(k, v)];
      assert forall j :: 0 <= j < |m| ==> m[j].0 in Keys(m);
      r
  }

  lemma GetPutSame<K, V>(m: OMap<K, V>, k: K, v: V)
    ensures Get(Put(m, k, v), k) == Some(v)
  {
    var r := Put(m, k, v);
    GetEntry(r, k);
    if k in Keys(m) {
      var i :| 0 <= i < |m| && m[i].0 == k;
      assert r[i] == (k, v);
    } else {
      assert r[|m|] == (k, v);
    }
  }

  lemma GetPutOther<K, V>(m: OMap<K, V>, k: K, v: V, k': K)
    requires k' != k
    ensures Get(Put(m, k, v), k') == Get(m, k')
  {
    var r := Put(m, k, v);
    if k' in Keys(m) {
      var i :| 0 <= i < |m| && m[i].0 == k';
      assert r[i] == m[i];
      GetEntry(r, k');
      GetEntry(m, k');
    } else if k in Keys(m) {
      assert Keys(r) == Keys(m);
    } else {
      assert Keys(r) == Keys(m) + [k];
    }
  }

  /** `Object.fromEntries(kvs)`: entries written in order, so a repeated key
      keeps its first position and its last value. */
  function FromEntries<K(==), V>(kvs: seq<(K, V)>): (r: OMap<K, V>)
    decreases |kvs|
  {
    if |kvs| == 0 then []
    else
      var last := kvs[|kvs| - 1];
      Put(FromEntries(kvs[..|kvs| - 1]), last.0, last.1)
  }

  /** The keys of a list of entries, in order, repeats included. */
  function EntryKeys<K, V>(kvs: seq<(K, V)>): (ks: seq<K>)
    ensures |ks| == |kvs|
    ensures forall i :: 0 <= i < |kvs| ==> ks[i] == kvs[i].0
  {
    seq(|kvs|, i requires 0 <= i < |kvs| => kvs[i].0)
  }

  /** The value of the last entry for `k`, if any. */
  function LastValue<K(==), V>(kvs: seq<(K, V)>, k: K): Option<V>
    decreases |kvs|
  {
    if |kvs| == 0 then None
    else if kvs[|kvs| - 1].0 == k then Some(kvs[|kvs| - 1].1)
    else LastValue(kvs[..|kvs| - 1], k)
  }

  /** `Object.fromEntries` keeps exactly the keys it was given, first
      occurrence first, and the value of the last entry for each key. */
  lemma {:induction false} FromEntriesSpec<K, V>(kvs: seq<(K, V)>)
    ensures Keys(FromEntries(kvs)) == Dedup(EntryKeys(kvs))
    ensures forall k :: Get(FromEntries(kvs), k) == LastValue(kvs, k)
    decreases |kvs|
  {
    if |kvs| > 0 {
      var init := kvs[..|kvs| - 1];
      var last := kvs[|kvs| - 1];
      FromEntriesSpec(init);
      assert EntryKeys(kvs)[..|kvs| - 1] == EntryKeys(init);
      forall k
        ensures Get(FromEntries(kvs), k) == LastValue(kvs, k)
      {
        if k == last.0 {
          GetPutSame(FromEntries(init), last.0, last.1);
        } else {
          GetPutOther(FromEntries(init), last.0, last.1, k);
        }
      }
    }
  }

  /** The last value for a key is the value of some entry with that key. */
  lemma {:induction false} LastValueIsEntry<K, V>(kvs: seq<(K, V)>, k: K)
    requires LastValue(kvs, k).Some?
    ensures exists i :: 0 <= i < |kvs| && kvs[i] == (k, LastValue(kvs, k).value)
    decreases |kvs|
  {
    if kvs[|kvs| - 1].0 != k {
      LastValueIsEntry(kvs[..|kvs| - 1], k);
      var i :| 0 <= i < |kvs| - 1 && kvs[..|kvs| - 1][i] == (k, LastValue(kvs, k).value);
      assert kvs[i] == kvs[..|kvs| - 1][i];
    }
  }

  /** The value of the last entry for a key is the one `LastValue` finds. */
  lemma {:induction false} LastValueAt<K, V>(kvs: seq<(K, V)>, i: nat)
    requires i < |kvs|
    requires forall j :: i < j < |kvs| ==> kvs[j].0 != kvs[i].0
    ensures LastValue(kvs, kvs[i].0) == Some(kvs[i].1)
    decreases |kvs|
  {
    if i < |kvs| - 1 {
      LastValueAt(kvs[..|kvs| - 1], i);
    }
  }
}
