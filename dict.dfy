/**
  Python `dict` with string keys, as LogSight uses it: an insertion-ordered
  sequence of (key, value) entries. Assigning to a key that is present replaces its
  value where it stands; assigning to a new key appends it.
 */
module Dict {
  import opened Wrappers

  type Dict<V> = seq<(string, V)>

  /** The keys, in insertion order (`list(d.keys())`). */
  function Keys<V>(d: Dict<V>): (ks: seq<string>)
    ensures |ks| == |d|
    ensures forall i | 0 <= i < |d| :: ks[i] == d[i].0
  {
    seq(|d|, i requires 0 <= i < |d| => d[i].0)
  }

  /** No key occurs twice: every dict built only by `Put` has this shape. */
  predicate UniqueKeys<V>(d: Dict<V>) {
    forall i, j | 0 <= i < j < |d| :: d[i].0 != d[j].0
  }

  /** The position of the first entry with key `k`, or `|d|` when there is none. */
  function IndexOf<V>(d: Dict<V>, k: string): (i: nat)
    ensures i <= |d|
    ensures i < |d| ==> d[i].0 == k
    ensures forall j | 0 <= j < i :: d[j].0 != k
    decreases |d|
  {
    if d == [] then 0
    else if d[0].0 == k then 0
    else 1 + IndexOf(d[1..], k)
  }

  /** `k in d` */
  predicate HasKey<V>(d: Dict<V>, k: string) {
    k in Keys(d)
  }

  /** `d.get(k)`, with `None` for a missing key. */
  function Get<V>(d: Dict<V>, k: string): (r: Option<V>)
    ensures r.None? <==> !HasKey(d, k)
    ensures r.Some? ==> (k, r.value) in d
  {
    var i := IndexOf(d, k);
    if i < |d| then Some(d[i].1) else None
  }

  /** `d.get(k, default)` */
  function GetOr<V>(d: Dict<V>, k: string, default: V): V {
    Get(d, k).GetOr(default)
  }

  /** `d[k] = v` */
  function Put<V>(d: Dict<V>, k: string, v: V): (r: Dict<V>)
    ensures Get(r, k) == Some(v)
    ensures forall k' | k' != k :: Get(r, k') == Get(d, k')
    ensures HasKey(d, k) ==> Keys(r) == Keys(d)
    ensures !HasKey(d, k) ==> Keys(r) == Keys(d) + [k]
    ensures UniqueKeys(d) ==> UniqueKeys(r)
  {
    var i := IndexOf(d, k);
    if i < |d| then
      var r := d[i := (k, v)];
      assert Keys(r) == Keys(d);
      forall k' ensures IndexOf(r, k') == IndexOf(d, k') {
        IndexOfKeys(d, r, k');
      }
      r
    else
      var r := d + [(k, v)];
      forall k' ensures IndexOf(r, k') == if IndexOf(d, k') < |d| then IndexOf(d, k') else if k' == k then |d| else |d| + 1 {
        IndexOfAppend(d, (k, v), k');
      }
      r
  }

  /** Assigning to a missing key appends its entry. */
  lemma PutNew<V>(d: Dict<V>, k: string, v: V)
    requires !HasKey(d, k)
    ensures Put(d, k, v) == d + [(k, v)]
  {
    assert IndexOf(d, k) == |d|;
  }

  /** Assignment writes one entry and keeps every other entry. */
  lemma PutEntries<V>(d: Dict<V>, k: string, v: V)
    ensures forall e | e in Put(d, k, v) :: e == (k, v) || e in d
  {
    var i := IndexOf(d, k);
    if i < |d| {
      assert Put(d, k, v) == d[i := (k, v)];
      forall e | e in d[i := (k, v)] ensures e == (k, v) || e in d {
        var j :| 0 <= j < |d| && d[i := (k, v)][j] == e;
        if j != i {
          assert e == d[j];
        }
      }
    } else {
      assert Put(d, k, v) == d + [(k, v)];
    }
  }

  /** Where a key is found depends only on the sequence of keys. */
  lemma {:induction false} IndexOfKeys<V>(d: Dict<V>, e: Dict<V>, k: string)
    requires Keys(d) == Keys(e)
    ensures IndexOf(d, k) == IndexOf(e, k)
    decreases |d|
  {
    if d != [] {
      assert d[0].0 == Keys(d)[0] == Keys(e)[0] == e[0].0;
      assert Keys(d[1..]) == Keys(d)[1..] == Keys(e)[1..] == Keys(e[1..]);
      IndexOfKeys(d[1..], e[1..], k);
    }
  }

  /** Appending an entry leaves earlier positions alone. */
  lemma {:induction false} IndexOfAppend<V>(d: Dict<V>, x: (string, V), k: string)
    ensures IndexOf(d + [x], k) ==
      if IndexOf(d, k) < |d| then IndexOf(d, k) else if x.0 == k then |d| else |d| + 1
    decreases |d|
  {
    if d == [] {
      assert d + [x] == [x];
    } else {
      assert (d + [x])[1..] == d[1..] + [x];
      IndexOfAppend(d[1..], x, k);
    }
  }
}
