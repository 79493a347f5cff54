/**
 * `Record<string, ParamValue>`: a JavaScript object used as a dictionary. Its
 * entries are kept in insertion order, which is the order `Object.entries`
 * visits them in; assigning an existing key keeps its position, a new key is
 * appended.
 */
module Records {
  import opened Wrappers
  import opened Types

  type Record = seq<(string, ParamValue)>

  /** The keys of a record, in entry order. */
  function Keys(r: Record): (ks: seq<string>)
    ensures |ks| == |r| && forall i :: 0 <= i < |r| ==> ks[i] == r[i].0
  {
    seq(|r|, i requires 0 <= i < |r| => r[i].0)
  }

  /** No key appears twice (always true of a JavaScript object). */
  predicate DistinctKeys(r: Record) {
    forall i, j :: 0 <= i < j < |r| ==> r[i].0 != r[j].0
  }

  /** `r[k]`, or None when `k` is not a key. */
  function Get(r: Record, k: string): (v: Option<ParamValue>)
    ensures v.Some? <==> k in Keys(r)
  {
    if r == [] then None
    else if r[0].0 == k then Some(r[0].1)
    else
      assert Keys(r) == [r[0].0] + Keys(r[1..]);
      Get(r[1..], k)
  }

  /** What `Get` finds is an entry of the record. */
  lemma {:induction false} GetFound(r: Record, k: string)
    requires Get(r, k).Some?
    ensures (k, Get(r, k).value) in r
  {
    if r[0].0 != k {
      GetFound(r[1..], k);
    }
  }

  /** In a record with distinct keys, every entry is what `Get` finds for its key. */
  lemma {:induction false} GetEntry(r: Record, i: nat)
    requires DistinctKeys(r) && i < |r|
    ensures Get(r, r[i].0) == Some(r[i].1)
  {
    if i > 0 {
      GetEntry(r[1..], i - 1);
    }
  }

  /** `{...r, [k]: v}`: the entry for `k` is overwritten in place, or appended when absent. */
  function Set(r: Record, k: string, v: ParamValue): Record {
    if r == [] then [(k, v)]
    else if r[0].0 == k then [(k, v)] + r[1..]
    else [r[0]] + Set(r[1..], k, v)
  }

  /** The keys of a record with a first entry. */
  lemma KeysCons(e: (string, ParamValue), r: Record)
    ensures Keys([e] + r) == [e.0] + Keys(r)
  {
  }

  /** Assigning an existing key keeps the key order; a new key goes last. */
  lemma {:induction false} SetKeys(r: Record, k: string, v: ParamValue)
    ensures k in Keys(r) ==> Keys(Set(r, k, v)) == Keys(r)
    ensures k !in Keys(r) ==> Keys(Set(r, k, v)) == Keys(r) + [k]
  {
    if r != [] {
      assert r == [r[0]] + r[1..];
      KeysCons(r[0], r[1..]);
      if r[0].0 == k {
        KeysCons((k, v), r[1..]);
      } else {
        SetKeys(r[1..], k, v);
        KeysCons(r[0], Set(r[1..], k, v));
      }
    }
  }

  /** After assigning `k`, reading `k` gives the new value and every other key reads as before. */
  lemma {:induction false} SetGet(r: Record, k: string, v: ParamValue)
    ensures Get(Set(r, k, v), k) == Some(v)
    ensures forall k' :: k' != k ==> Get(Set(r, k, v), k') == Get(r, k')
  {
    if r != [] && r[0].0 != k {
      SetGet(r[1..], k, v);
      assert Set(r, k, v)[1..] == Set(r[1..], k, v);
    } else if r != [] {
      assert Set(r, k, v)[1..] == r[1..];
    }
  }

  /** Assigning adds the new entry and otherwise only drops entries. */
  lemma {:induction false} SetEntries(r: Record, k: string, v: ParamValue)
    ensures forall e :: e in Set(r, k, v) ==> e in r || e == (k, v)
  {
    if r != [] && r[0].0 != k {
      SetEntries(r[1..], k, v);
    }
  }

  /** Assigning a key keeps the keys of an object distinct. */
  lemma SetKeepsKeysDistinct(r: Record, k: string, v: ParamValue)
    requires DistinctKeys(r)
    ensures DistinctKeys(Set(r, k, v))
  {
    var r' := Set(r, k, v);
    SetKeys(r, k, v);
    forall i, j | 0 <= i < j < |r'| ensures r'[i].0 != r'[j].0 {
      assert Keys(r')[i] == r'[i].0 && Keys(r')[j] == r'[j].0;
      if k !in Keys(r) && j == |r| {
        assert Keys(r')[i] == Keys(r)[i];
      }
    }
  }

  /** The record as a map from keys to values (forgetting the entry order). */
  function AsMap(r: Record): (m: map<string, ParamValue>)
    ensures m.Keys == set k | k in Keys(r)
    ensures forall k :: k in m ==> Get(r, k) == Some(m[k])
  {
    map k | k in Keys(r) :: Get(r, k).value
  }

  /** Splitting off the first entry of a record with distinct keys. */
  lemma AsMapCons(r: Record)
    requires DistinctKeys(r) && r != []
    ensures r[0].0 !in AsMap(r[1..])
    ensures AsMap(r) == AsMap(r[1..])[r[0].0 := r[0].1]
  {
    assert Keys(r) == [r[0].0] + Keys(r[1..]);
  }

  /** Two records with distinct keys and the same entries in any order denote the same map. */
  lemma {:induction false} AsMapOfPermutation(r1: Record, r2: Record)
    requires DistinctKeys(r1) && DistinctKeys(r2) && multiset(r1) == multiset(r2)
    ensures AsMap(r1) == AsMap(r2)
  {
    forall k | k in Keys(r1) ensures k in Keys(r2) && Get(r1, k) == Get(r2, k) {
      var v := Get(r1, k).value;
      GetFound(r1, k);
      assert (k, v) in multiset(r2);
      var j :| 0 <= j < |r2| && r2[j] == (k, v);
      GetEntry(r2, j);
    }
    forall k | k in Keys(r2) ensures k in Keys(r1) {
      var v := Get(r2, k).value;
      GetFound(r2, k);
      assert (k, v) in multiset(r1);
    }
  }
}
