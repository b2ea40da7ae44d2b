/**
 * The bilingual dictionary: Indonesian headwords (keys) mapped to Dayak
 * Kenyah headwords (values), kept in load order because the translator's
 * scans and tie-breaks follow the iteration order of the loaded JSON object.
 */
module Dictionary {
  import opened Wrappers

  datatype Entry = Entry(key: string, value: string)

  /** Entries in load order. A loaded JSON object has unique keys. */
  type Dict = seq<Entry>

  predicate UniqueKeys(d: Dict)
  {
    forall i, j :: 0 <= i < j < |d| ==> d[i].key != d[j].key
  }

  /** `d.get(k)`: the value of the entry with key `k`. */
  function Lookup(d: Dict, k: string): (r: Option<string>)
    ensures r.None? <==> forall i :: 0 <= i < |d| ==> d[i].key != k
    ensures r.Some? ==> exists i :: 0 <= i < |d| && d[i] == Entry(k, r.value)
  {
    if d == [] then None
    else if d[0].key == k then Some(d[0].value)
    else
      var r := Lookup(d[1..], k);
      assert forall i :: 1 <= i < |d| ==> d[i] == d[1..][i - 1];
      r
  }

  /** `k in d` */
  predicate HasKey(d: Dict, k: string) { Lookup(d, k).Some? }

  /** With unique keys, the value found for an entry's key is that entry's value. */
  lemma {:induction false} LookupEntry(d: Dict, i: nat)
    requires UniqueKeys(d) && i < |d|
    ensures Lookup(d, d[i].key) == Some(d[i].value)
    decreases |d|
  {
    if i > 0 {
      assert d[0].key != d[i].key;
      assert d[1..][i - 1] == d[i];
      assert UniqueKeys(d[1..]) by {
        forall a, b | 0 <= a < b < |d[1..]| ensures d[1..][a].key != d[1..][b].key {
          assert d[1..][a] == d[a + 1] && d[1..][b] == d[b + 1];
        }
      }
      LookupEntry(d[1..], i - 1);
    }
  }

  /** `list(d.keys())` */
  function Keys(d: Dict): (ks: seq<string>)
    ensures |ks| == |d| && forall i :: 0 <= i < |d| ==> ks[i] == d[i].key
  {
    seq(|d|, i requires 0 <= i < |d| => d[i].key)
  }

  /** `list(d.values())` */
  function Values(d: Dict): (vs: seq<string>)
    ensures |vs| == |d| && forall i :: 0 <= i < |d| ==> vs[i] == d[i].value
  {
    seq(|d|, i requires 0 <= i < |d| => d[i].value)
  }

  /** A map from each value to the set of keys whose entries carry it. */
  type ReverseIndex = map<string, set<string>>

  /** `rev` is the exact inverse of `d`: it holds every entry, and nothing else. */
  ghost predicate IsReverseOf(rev: ReverseIndex, d: Dict)
  {
    && (forall i :: 0 <= i < |d| ==> d[i].value in rev && d[i].key in rev[d[i].value])
    && (forall v :: v in rev ==> rev[v] != {})
    && (forall v, k :: v in rev && k in rev[v] ==> exists i :: 0 <= i < |d| && d[i] == Entry(k, v))
  }

  /**
   * The reverse-index build loop (vercel-deployment/api/translate.py, at
   * module load): for each entry, add its key to the set kept for its value.
   */
  method BuildReverse(d: Dict) returns (rev: ReverseIndex)
    ensures IsReverseOf(rev, d)
  {
    rev := map[];
    for i := 0 to |d|
      invariant forall j :: 0 <= j < i ==> d[j].value in rev && d[j].key in rev[d[j].value]
      invariant forall v :: v in rev ==> rev[v] != {}
      invariant forall v, k :: v in rev && k in rev[v] ==> exists j :: 0 <= j < i && d[j] == Entry(k, v)
    {
      var e := d[i];
      var keys := if e.value in rev then rev[e.value] else {};
      rev := rev[e.value := keys + {e.key}];
    }
  }

  /** With unique keys, every key the index holds for `v` maps to `v`. */
  lemma ReverseIsInverse(rev: ReverseIndex, d: Dict, v: string, k: string)
    requires IsReverseOf(rev, d) && UniqueKeys(d)
    ensures (v in rev && k in rev[v]) <==> Lookup(d, k) == Some(v)
  {
    if v in rev && k in rev[v] {
      var i :| 0 <= i < |d| && d[i] == Entry(k, v);
      LookupEntry(d, i);
    }
    if Lookup(d, k) == Some(v) {
      var i :| 0 <= i < |d| && d[i] == Entry(k, v);
    }
  }

  /** The inverse is determined by the dictionary: two indexes of one dictionary are equal. */
  lemma ReverseIndexUnique(r1: ReverseIndex, r2: ReverseIndex, d: Dict)
    requires IsReverseOf(r1, d) && IsReverseOf(r2, d)
    ensures r1 == r2
  {
    forall v | v in r1 ensures v in r2 && r1[v] == r2[v] {
      var k :| k in r1[v];
      var i :| 0 <= i < |d| && d[i] == Entry(k, v);
      SameKeys(r1, r2, d, v);
    }
    forall v | v in r2 ensures v in r1 {
      var k :| k in r2[v];
      var i :| 0 <= i < |d| && d[i] == Entry(k, v);
    }
  }

  lemma SameKeys(r1: ReverseIndex, r2: ReverseIndex, d: Dict, v: string)
    requires IsReverseOf(r1, d) && IsReverseOf(r2, d) && v in r1 && v in r2
    ensures r1[v] == r2[v]
  {
    forall k | k in r1[v] ensures k in r2[v] {
      var i :| 0 <= i < |d| && d[i] == Entry(k, v);
    }
    forall k | k in r2[v] ensures k in r1[v] {
      var i :| 0 <= i < |d| && d[i] == Entry(k, v);
    }
  }
}
