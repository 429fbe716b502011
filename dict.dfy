/**
 * Python's insertion-ordered `dict[str, V]`, as a sequence of key/value
 * entries. Assigning to a present key replaces its value where it stands;
 * assigning to a new key appends an entry.
 */
module Dict {

  type Dict<V> = seq<(string, V)>

  function Keys<V>(d: Dict<V>): set<string> {
    set i | 0 <= i < |d| :: d[i].0
  }

  ghost predicate DistinctKeys<V>(d: Dict<V>) {
    forall i, j :: 0 <= i < j < |d| ==> d[i].0 != d[j].0
  }

  /** Position of the first entry holding `k`. */
  function IndexOf<V>(d: Dict<V>, k: string): (i: nat)
    requires k in Keys(d)
    ensures i < |d| && d[i].0 == k
    ensures forall j :: 0 <= j < i ==> d[j].0 != k
  {
    if d[0].0 == k then 0
    else
      assert k in Keys(d[1..]) by {
        var i :| 0 <= i < |d| && d[i].0 == k;
        assert d[1..][i - 1].0 == k;
      }
      1 + IndexOf(d[1..], k)
  }

  /** `d[k]`. */
  function Get<V>(d: Dict<V>, k: string): V
    requires k in Keys(d)
  {
    d[IndexOf(d, k)].1
  }

  /** `d[k] = v`. */
  function Put<V>(d: Dict<V>, k: string, v: V): (r: Dict<V>)
    ensures Keys(r) == Keys(d) + {k}
    ensures Get(r, k) == v
    ensures forall j :: j in Keys(d) && j != k ==> Get(r, j) == Get(d, j)
    ensures DistinctKeys(d) ==> DistinctKeys(r)
  {
    if k in Keys(d) then
      var i := IndexOf(d, k);
      var r := d[i := (k, v)];
      assert Keys(r) == Keys(d) by {
        forall x | x in Keys(d) ensures x in Keys(r) {
          var j :| 0 <= j < |d| && d[j].0 == x;
          assert r[j].0 == x;
        }
      }
      IndexOfUnique(r, k, i);
      assert forall j :: j in Keys(d) && j != k ==> IndexOf(r, j) == IndexOf(d, j) by {
        forall j | j in Keys(d) && j != k ensures IndexOf(r, j) == IndexOf(d, j) {
          IndexOfUpdate(d, i, v, j);
        }
      }
      r
    else
      var r := d + [(k, v)];
      assert Keys(r) == Keys(d) + {k} by {
        assert r[|d|].0 == k;
        forall x | x in Keys(d) ensures x in Keys(r) {
          var j :| 0 <= j < |d| && d[j].0 == x;
          assert r[j].0 == x;
        }
      }
      assert IndexOf(r, k) == |d|;
      assert forall j :: j in Keys(d) ==> IndexOf(r, j) == IndexOf(d, j) by {
        forall j | j in Keys(d) ensures IndexOf(r, j) == IndexOf(d, j) {
          IndexOfAppend(d, (k, v), j);
        }
      }
      r
  }

  lemma {:induction false} IndexOfUpdate<V>(d: Dict<V>, i: nat, v: V, j: string)
    requires i < |d| && j in Keys(d) && j != d[i].0
    ensures j in Keys(d[i := (d[i].0, v)])
    ensures IndexOf(d[i := (d[i].0, v)], j) == IndexOf(d, j)
  {
    var r := d[i := (d[i].0, v)];
    var n := IndexOf(d, j);
    assert r[n].0 == j;
    var m := IndexOf(r, j);
    assert d[m].0 == j;
  }

  lemma {:induction false} IndexOfAppend<V>(d: Dict<V>, e: (string, V), j: string)
    requires j in Keys(d)
    ensures j in Keys(d + [e])
    ensures IndexOf(d + [e], j) == IndexOf(d, j)
  {
    var n := IndexOf(d, j);
    assert (d + [e])[n].0 == j;
    IndexOfUnique(d + [e], j, n);
  }

  /** The first position holding `k` is the one IndexOf finds. */
  lemma IndexOfUnique<V>(d: Dict<V>, k: string, i: nat)
    requires i < |d| && d[i].0 == k
    requires forall j :: 0 <= j < i ==> d[j].0 != k
    ensures k in Keys(d) && IndexOf(d, k) == i
  {
    assert k in Keys(d);
  }

  /** Appending an entry adds exactly its key. */
  lemma KeysAppend<V>(d: Dict<V>, e: (string, V))
    ensures Keys(d + [e]) == Keys(d) + {e.0}
  {
    var r := d + [e];
    assert r[|d|] == e;
    forall x | x in Keys(d) ensures x in Keys(r) {
      var j :| 0 <= j < |d| && d[j].0 == x;
      assert r[j].0 == x;
    }
  }
}
