/**
 * The entity store: a `Record<string, T>` object. JavaScript objects keep
 * their (non-numeric) keys in insertion order, and `Object.values` /
 * `Object.entries` enumerate in that order, so a table is an insertion-ordered
 * key list together with the key-to-value map.
 */
module Tables {
  import opened Wrappers
  import opened Seqs

  datatype RawTable<T> = RawTable(order: seq<string>, rows: map<string, T>)

  /** Every key is listed exactly once, and only keys are listed. */
  ghost predicate WellFormed<T>(t: RawTable<T>) {
    NoDup(t.order) && forall k :: k in t.rows <==> k in t.order
  }

  type Table<T> = t: RawTable<T> | WellFormed(t) witness RawTable([], map[])

  /** `{}` */
  function Empty<T>(): (t: Table<T>)
    ensures t.rows == map[] && t.order == []
  {
    RawTable([], map[])
  }

  /** `obj[k]`, with `undefined` as `None`. */
  function Get<T>(t: Table<T>, k: string): (r: Option<T>)
    ensures r.Some? <==> k in t.rows
    ensures r.Some? ==> r.value == t.rows[k]
  {
    if k in t.rows then Some(t.rows[k]) else None
  }

  /**
   * `{ ...obj, [k]: v }`: an existing key keeps its position and takes the new
   * value; a new key goes to the end.
   */
  function Put<T>(t: Table<T>, k: string, v: T): (r: Table<T>)
    ensures r.rows == t.rows[k := v]
    ensures k in t.rows ==> r.order == t.order
    ensures k !in t.rows ==> r.order == t.order + [k]
  {
    var order := if k in t.rows then t.order else t.order + [k];
    assert NoDup(order) by {
      if k !in t.rows {
        forall i, j | 0 <= i < j < |order| ensures order[i] != order[j] {
          if j == |t.order| {
            assert order[i] == t.order[i];
          }
        }
      }
    }
    RawTable(order, t.rows[k := v])
  }

  /** `Object.values(obj)`: the values in key-insertion order. */
  function Values<T>(t: Table<T>): (r: seq<T>)
    ensures |r| == |t.order|
    ensures forall i :: 0 <= i < |r| ==> t.order[i] in t.rows && r[i] == t.rows[t.order[i]]
  {
    seq(|t.order|, i requires 0 <= i < |t.order| => t.rows[t.order[i]])
  }

  /** Builds a table with the same keys, in the same order, with each value passed through `f`. */
  function MapValues<T, U>(t: Table<T>, f: T -> U): (r: Table<U>)
    ensures r.order == t.order
    ensures r.rows.Keys == t.rows.Keys
    ensures forall k :: k in t.rows ==> r.rows[k] == f(t.rows[k])
  {
    RawTable(t.order, map k | k in t.rows :: f(t.rows[k]))
  }

  /** A value occurs in `Values(t)` exactly when some key maps to it. */
  lemma ValuesAreRows<T>(t: Table<T>, v: T)
    ensures v in Values(t) <==> exists k :: k in t.rows && t.rows[k] == v
  {
    if exists k :: k in t.rows && t.rows[k] == v {
      var k :| k in t.rows && t.rows[k] == v;
      var i :| 0 <= i < |t.order| && t.order[i] == k;
      assert Values(t)[i] == v;
    }
  }

  /** A second write to the same key supersedes the first. */
  lemma PutPut<T>(t: Table<T>, k: string, v1: T, v2: T)
    ensures Put(Put(t, k, v1), k, v2) == Put(t, k, v2)
  {
    assert t.rows[k := v1][k := v2] == t.rows[k := v2];
  }

  /** Writing a new key appends its value to the values. */
  lemma PutFreshValues<T>(t: Table<T>, k: string, v: T)
    requires k !in t.rows
    ensures Values(Put(t, k, v)) == Values(t) + [v]
  {
  }

  /** Updating a key already present changes only that key's value. */
  lemma PutPresentValues<T>(t: Table<T>, k: string, v: T, i: nat)
    requires k in t.rows
    requires i < |t.order| && t.order[i] == k
    ensures Values(Put(t, k, v)) == Values(t)[i := v]
  {
  }
}
