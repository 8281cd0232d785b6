/**
 * JSON values as loaded by Python, and the insertion-ordered dictionaries that hold them.
 * A Python `dict` keeps its keys in insertion order; it is modelled as a sequence of
 * (key, value) pairs, with `d[k] = v` replacing the value in place when `k` is already a key
 * and appending otherwise.
 */
module JsonValues {
  import opened Wrappers

  /** The Python exceptions the decomposer can raise while walking a document. */
  datatype Error = KeyError(key: string) | IndexError | TypeError | AttributeError

  /** An insertion-ordered dictionary with string keys. */
  type Dict<V> = seq<(string, V)>

  /** A JSON value; numbers are kept as integers, since no number is ever inspected. */
  datatype Json =
    | Null
    | Bool(b: bool)
    | Num(n: int)
    | Str(s: string)
    | Arr(items: seq<Json>)
    | Obj(fields: Dict<Json>)

  /** The keys of `d`, in order. */
  function Keys<V>(d: Dict<V>): (ks: seq<string>)
    ensures |ks| == |d|
    ensures forall i :: 0 <= i < |d| ==> ks[i] == d[i].0
  {
    if d == [] then [] else [d[0].0] + Keys(d[1..])
  }

  predicate HasKey<V>(d: Dict<V>, k: string)
  {
    k in Keys(d)
  }

  /** Every key occurs once, as in any Python `dict`. */
  ghost predicate DistinctKeys<V>(d: Dict<V>)
  {
    forall i, j :: 0 <= i < j < |d| ==> d[i].0 != d[j].0
  }

  /** `d.get(k)`: the value stored under the first occurrence of `k`. */
  function Get<V>(d: Dict<V>, k: string): (r: Option<V>)
    ensures r.Some? <==> HasKey(d, k)
  {
    if d == [] then None
    else if d[0].0 == k then Some(d[0].1)
    else
      assert Keys(d) == [d[0].0] + Keys(d[1..]);
      Get(d[1..], k)
  }

  /** The entry `d.get(k)` reads sits at some position of `d`. */
  lemma {:induction false} GetIndex<V>(d: Dict<V>, k: string) returns (i: nat)
    requires HasKey(d, k)
    ensures i < |d| && d[i] == (k, Get(d, k).value)
  {
    assert Keys(d) == [d[0].0] + Keys(d[1..]);
    if d[0].0 == k {
      i := 0;
    } else {
      var j := GetIndex(d[1..], k);
      i := j + 1;
    }
  }

  /** In a dictionary with distinct keys, the value of a key is the one paired with it. */
  lemma GetDistinct<V>(d: Dict<V>, i: nat)
    requires DistinctKeys(d) && i < |d|
    ensures Get(d, d[i].0) == Some(d[i].1)
  {
    if i > 0 {
      assert d[0].0 != d[i].0;
      GetDistinct(d[1..], i - 1);
    }
  }

  /** The keys of a concatenation are the keys of its parts. */
  lemma KeysAppend<V>(a: Dict<V>, b: Dict<V>)
    ensures Keys(a + b) == Keys(a) + Keys(b)
  {
    var l, r := Keys(a + b), Keys(a) + Keys(b);
    forall i | 0 <= i < |l| ensures l[i] == r[i] {
      if i < |a| {
        assert (a + b)[i] == a[i];
      } else {
        assert (a + b)[i] == b[i - |a|];
      }
    }
  }

  /** Looking a key up in a concatenation looks in the left part first. */
  lemma GetAppend<V>(a: Dict<V>, b: Dict<V>, k: string)
    ensures HasKey(a + b, k) <==> HasKey(a, k) || HasKey(b, k)
    ensures Get(a + b, k) == if HasKey(a, k) then Get(a, k) else Get(b, k)
  {
    KeysAppend(a, b);
    GetAppendValue(a, b, k);
  }

  lemma {:induction false} GetAppendValue<V>(a: Dict<V>, b: Dict<V>, k: string)
    ensures Get(a + b, k) == if HasKey(a, k) then Get(a, k) else Get(b, k)
  {
    if a == [] {
      assert a + b == b;
    } else {
      assert (a + b)[0] == a[0];
      assert Keys(a) == [a[0].0] + Keys(a[1..]);
      if a[0].0 != k {
        assert (a + b)[1..] == a[1..] + b;
        GetAppendValue(a[1..], b, k);
      }
    }
  }

  /** Python's `d[k] = v`. */
  function Set<V>(d: Dict<V>, k: string, v: V): (r: Dict<V>)
    ensures !HasKey(d, k) ==> r == d + [(k, v)]
    ensures HasKey(d, k) ==> |r| == |d| && Keys(r) == Keys(d)
    ensures Get(r, k) == Some(v)
    ensures forall k' :: k' != k ==> Get(r, k') == Get(d, k')
  {
    if d == [] then [(k, v)]
    else if d[0].0 == k then [(k, v)] + d[1..]
    else
      assert Keys(d) == [d[0].0] + Keys(d[1..]);
      var t := Set(d[1..], k, v);
      var r := [d[0]] + t;
      assert r[0] == d[0] && r[1..] == t;
      assert Keys(r) == [d[0].0] + Keys(t);
      r
  }

  /** Assigning to the only key of a one-entry dictionary replaces its value. */
  lemma SetOnly<V>(k: string, v: V, v': V)
    ensures Set([(k, v)], k, v') == [(k, v')]
  {
  }

  /** Assigning to a new key of a one-entry dictionary appends the entry. */
  lemma SetAfter<V>(e: (string, V), k: string, v: V)
    requires e.0 != k
    ensures Set([e], k, v) == [e, (k, v)]
  {
    assert Keys([e]) == [e.0];
  }

  /** Python's `del d[k]`. */
  function Delete<V(!new)>(d: Dict<V>, k: string): (r: Dict<V>)
    ensures forall e :: e in r <==> e in d && e.0 != k
    ensures !HasKey(r, k)
  {
    if d == [] then []
    else if d[0].0 == k then Delete(d[1..], k)
    else [d[0]] + Delete(d[1..], k)
  }

  /** Deleting a key the dictionary lacks changes nothing. */
  lemma {:induction false} DeleteAbsent<V(!new)>(d: Dict<V>, k: string)
    requires !HasKey(d, k)
    ensures Delete(d, k) == d
  {
    if d != [] {
      assert d[0].0 != k && !HasKey(d[1..], k) by {
        assert Keys(d) == [d[0].0] + Keys(d[1..]);
      }
      DeleteAbsent(d[1..], k);
      calc {
        Delete(d, k);
        [d[0]] + Delete(d[1..], k);
        [d[0]] + d[1..];
        { assert d == [d[0]] + d[1..]; }
        d;
      }
    }
  }

  /** In a dictionary with distinct keys, `del d[k]` removes the one entry of `k` and keeps the others in order. */
  lemma {:induction false} DeleteAt<V(!new)>(d: Dict<V>, k: string, i: nat)
    requires DistinctKeys(d) && i < |d| && d[i].0 == k
    ensures Delete(d, k) == d[..i] + d[i + 1..]
  {
    DistinctTail(d);
    if i == 0 {
      DeleteHead(d, k);
    } else {
      assert d[1..][i - 1] == d[i];
      DeleteAt(d[1..], k, i - 1);
      DeleteBeyondHead(d, k, i);
    }
  }

  /** Deleting the head's key, absent from the tail, leaves the tail. */
  lemma DeleteHead<V(!new)>(d: Dict<V>, k: string)
    requires d != [] && d[0].0 == k && !HasKey(d[1..], k)
    ensures Delete(d, k) == d[..0] + d[1..]
  {
    DeleteAbsent(d[1..], k);
    assert d[..0] + d[1..] == d[1..];
  }

  /** Deleting a key that is not the head's keeps the head in front of the shortened tail. */
  lemma DeleteBeyondHead<V(!new)>(d: Dict<V>, k: string, i: nat)
    requires 0 < i < |d| && d[0].0 != k && Delete(d[1..], k) == d[1..][..i - 1] + d[1..][i..]
    ensures Delete(d, k) == d[..i] + d[i + 1..]
  {
    calc {
      Delete(d, k);
      [d[0]] + Delete(d[1..], k);
      [d[0]] + (d[1..][..i - 1] + d[1..][i..]);
      { ConsWithout(d, i); }
      d[..i] + d[i + 1..];
    }
  }

  /** Putting the head back in front of the tail without its entry `i - 1` gives `d` without its entry `i`. */
  lemma ConsWithout<V>(d: Dict<V>, i: nat)
    requires 0 < i < |d|
    ensures [d[0]] + (d[1..][..i - 1] + d[1..][i..]) == d[..i] + d[i + 1..]
  {
    var l, r := [d[0]] + (d[1..][..i - 1] + d[1..][i..]), d[..i] + d[i + 1..];
    assert |l| == |r|;
    forall x | 0 <= x < |l| ensures l[x] == r[x] {
      if x == 0 {
      } else if x < i {
        assert l[x] == d[1..][x - 1];
      } else {
        assert l[x] == d[1..][x];
      }
    }
  }

  /** A key a dictionary lacks can be put in front of it without a clash. */
  lemma DistinctCons<V>(e: (string, V), d: Dict<V>)
    requires DistinctKeys(d) && !HasKey(d, e.0)
    ensures DistinctKeys([e] + d)
  {
    var r := [e] + d;
    forall x, y | 0 <= x < y < |r| ensures r[x].0 != r[y].0 {
      assert r[y] == d[y - 1];
      if x == 0 {
        assert Keys(d)[y - 1] == d[y - 1].0;
      } else {
        assert r[x] == d[x - 1];
      }
    }
  }

  /** The tail of a dictionary with distinct keys has distinct keys and lacks the head's key. */
  lemma DistinctTail<V>(d: Dict<V>)
    requires DistinctKeys(d) && d != []
    ensures DistinctKeys(d[1..]) && !HasKey(d[1..], d[0].0)
  {
    forall x, y | 0 <= x < y < |d[1..]| ensures d[1..][x].0 != d[1..][y].0 {
      assert d[1..][x] == d[x + 1] && d[1..][y] == d[y + 1];
    }
    forall y | 0 <= y < |d[1..]| ensures Keys(d[1..])[y] != d[0].0 {
      assert d[1..][y] == d[y + 1];
    }
  }

  /** Deleting a key adds no key. */
  lemma {:induction false} DeleteKeys<V(!new)>(d: Dict<V>, k: string, x: string)
    requires HasKey(Delete(d, k), x)
    ensures HasKey(d, x)
  {
    if d != [] {
      assert Keys(d) == [d[0].0] + Keys(d[1..]);
      if d[0].0 == k || x != d[0].0 {
        if d[0].0 != k {
          assert Keys(Delete(d, k)) == [d[0].0] + Keys(Delete(d[1..], k));
        }
        DeleteKeys(d[1..], k, x);
      }
    }
  }

  /** Deleting a key keeps the remaining keys distinct. */
  lemma {:induction false} DeleteDistinct<V(!new)>(d: Dict<V>, k: string)
    requires DistinctKeys(d)
    ensures DistinctKeys(Delete(d, k))
  {
    if d != [] {
      DistinctTail(d);
      DeleteDistinct(d[1..], k);
      if d[0].0 != k {
        if HasKey(Delete(d[1..], k), d[0].0) {
          DeleteKeys(d[1..], k, d[0].0);
        }
        DistinctCons(d[0], Delete(d[1..], k));
      }
    }
  }

  /** Assigning into a dictionary with distinct keys keeps its keys distinct. */
  lemma {:induction false} SetDistinct<V>(d: Dict<V>, k: string, v: V)
    requires DistinctKeys(d)
    ensures DistinctKeys(Set(d, k, v))
  {
    if d != [] {
      DistinctTail(d);
      if d[0].0 == k {
        DistinctCons((k, v), d[1..]);
      } else {
        SetDistinct(d[1..], k, v);
        assert Get(Set(d[1..], k, v), d[0].0) == Get(d[1..], d[0].0);
        DistinctCons(d[0], Set(d[1..], k, v));
      }
    }
  }
}
