/**
 * `remove_unecessary_keys`: recursively deletes every dictionary entry whose key is in a
 * fixed list, descending into the surviving values and into every list element.
 */
module KeyRemoval {
  import opened JsonValues

  /** The keys `API_SpecificationParser` strips before bucketing. */
  const UselessKeys: seq<string> := ["type", "in", "readOnly", "format", "responses", "operationId", "tags"]

  /** The entries of one dictionary that are not deleted, in their original order. */
  function Kept(fields: Dict<Json>, useless: seq<string>): Dict<Json>
  {
    if fields == [] then []
    else (if fields[0].0 in useless then [] else [fields[0]]) + Kept(fields[1..], useless)
  }

  /** An entry survives exactly when it was there and its key is not useless. */
  lemma {:induction false} KeptMembers(fields: Dict<Json>, useless: seq<string>)
    ensures forall e :: e in Kept(fields, useless) <==> e in fields && e.0 !in useless
  {
    if fields != [] {
      KeptMembers(fields[1..], useless);
      assert fields == [fields[0]] + fields[1..];
    }
  }

  /** The value the Python procedure leaves behind, computed on values. */
  function Cleaned(j: Json, useless: seq<string>): Json
    decreases j
  {
    match j
    case Arr(items) => Arr(seq(|items|, i requires 0 <= i < |items| => Cleaned(items[i], useless)))
    case Obj(fields) =>
      var kept := Kept(fields, useless);
      KeptMembers(fields, useless);
      Obj(seq(|kept|, i requires 0 <= i < |kept| =>
        (kept[i].0, assert kept[i] in fields; Cleaned(kept[i].1, useless))))
    case _ => j
  }

  /** No dictionary anywhere inside `j` has a key from `useless`. */
  ghost predicate FreeOf(j: Json, useless: seq<string>)
    decreases j
  {
    match j
    case Arr(items) => forall i :: 0 <= i < |items| ==> FreeOf(items[i], useless)
    case Obj(fields) =>
      forall i :: 0 <= i < |fields| ==> fields[i].0 !in useless && FreeOf(fields[i].1, useless)
    case _ => true
  }

  /** Every dictionary inside `j` has distinct keys, as a value built by Python's json loader does. */
  ghost predicate WellFormed(j: Json)
    decreases j
  {
    match j
    case Arr(items) => forall i :: 0 <= i < |items| ==> WellFormed(items[i])
    case Obj(fields) => DistinctKeys(fields) && forall i :: 0 <= i < |fields| ==> WellFormed(fields[i].1)
    case _ => true
  }

  lemma {:induction false} KeptAppend(a: Dict<Json>, b: Dict<Json>, useless: seq<string>)
    ensures Kept(a + b, useless) == Kept(a, useless) + Kept(b, useless)
  {
    if a != [] {
      assert (a + b)[0] == a[0];
      assert (a + b)[1..] == a[1..] + b;
      KeptAppend(a[1..], b, useless);
      var h := if a[0].0 in useless then [] else [a[0]];
      assert Kept(a + b, useless) == h + Kept(a[1..] + b, useless);
      assert Kept(a, useless) == h + Kept(a[1..], useless);
      assert h + (Kept(a[1..], useless) + Kept(b, useless)) == (h + Kept(a[1..], useless)) + Kept(b, useless);
    } else {
      assert a + b == b;
    }
  }

  lemma {:induction false} KeptAllWhenFree(fields: Dict<Json>, useless: seq<string>)
    requires forall i :: 0 <= i < |fields| ==> fields[i].0 !in useless
    ensures Kept(fields, useless) == fields
  {
    if fields != [] {
      KeptAllWhenFree(fields[1..], useless);
      assert [fields[0]] + fields[1..] == fields;
    }
  }

  lemma {:induction false} KeptDistinct(fields: Dict<Json>, useless: seq<string>)
    requires DistinctKeys(fields)
    ensures DistinctKeys(Kept(fields, useless))
  {
    if fields != [] {
      var rest := Kept(fields[1..], useless);
      KeptDistinct(fields[1..], useless);
      KeptMembers(fields[1..], useless);
      if fields[0].0 !in useless {
        forall j | 0 <= j < |rest| ensures rest[j].0 != fields[0].0 {
          assert rest[j] in fields[1..];
        }
      }
    }
  }

  /** After the call no dictionary anywhere in the tree has a useless key. */
  lemma {:induction false} CleanedIsFree(j: Json, useless: seq<string>)
    ensures FreeOf(Cleaned(j, useless), useless)
    decreases j
  {
    match j
    case Arr(items) =>
      forall i | 0 <= i < |items| ensures FreeOf(Cleaned(items[i], useless), useless) {
        CleanedIsFree(items[i], useless);
      }
    case Obj(fields) =>
      var kept := Kept(fields, useless);
      KeptMembers(fields, useless);
      forall i | 0 <= i < |kept| ensures kept[i].0 !in useless && FreeOf(Cleaned(kept[i].1, useless), useless) {
        assert kept[i] in fields;
        CleanedIsFree(kept[i].1, useless);
      }
    case _ =>
  }

  /** A tree that has no useless key is left exactly as it was. */
  lemma {:induction false} CleanedKeepsFree(j: Json, useless: seq<string>)
    requires FreeOf(j, useless)
    ensures Cleaned(j, useless) == j
    decreases j
  {
    match j
    case Arr(items) =>
      forall i | 0 <= i < |items| ensures Cleaned(items[i], useless) == items[i] {
        CleanedKeepsFree(items[i], useless);
      }
    case Obj(fields) =>
      KeptAllWhenFree(fields, useless);
      forall i | 0 <= i < |fields| ensures Cleaned(fields[i].1, useless) == fields[i].1 {
        CleanedKeepsFree(fields[i].1, useless);
      }
    case _ =>
  }

  /** A second call changes nothing. */
  lemma Idempotent(j: Json, useless: seq<string>)
    ensures Cleaned(Cleaned(j, useless), useless) == Cleaned(j, useless)
  {
    CleanedIsFree(j, useless);
    CleanedKeepsFree(Cleaned(j, useless), useless);
  }

  /** The call changes a tree exactly when some dictionary in it has a useless key. */
  lemma UnchangedIff(j: Json, useless: seq<string>)
    ensures Cleaned(j, useless) == j <==> FreeOf(j, useless)
  {
    CleanedIsFree(j, useless);
    if FreeOf(j, useless) {
      CleanedKeepsFree(j, useless);
    }
  }

  /**
   * One dictionary: an entry survives exactly when its key is not useless, and then it keeps its
   * key and carries its cleaned value; lists keep their length, order and elements' positions.
   */
  lemma CleanedShape(j: Json, useless: seq<string>)
    ensures j.Obj? ==> (Cleaned(j, useless).Obj? &&
      forall e :: e in j.fields && e.0 !in useless ==> (e.0, Cleaned(e.1, useless)) in Cleaned(j, useless).fields)
    ensures j.Obj? ==> (forall e :: e in Cleaned(j, useless).fields ==>
      e.0 !in useless && exists v :: (e.0, v) in j.fields && e.1 == Cleaned(v, useless))
    ensures j.Arr? ==> (Cleaned(j, useless).Arr? && |Cleaned(j, useless).items| == |j.items| &&
      forall i :: 0 <= i < |j.items| ==> Cleaned(j, useless).items[i] == Cleaned(j.items[i], useless))
    ensures !j.Obj? && !j.Arr? ==> Cleaned(j, useless) == j
  {
    if j.Obj? {
      var kept := Kept(j.fields, useless);
      KeptMembers(j.fields, useless);
      var r := Cleaned(j, useless).fields;
      forall e | e in j.fields && e.0 !in useless
        ensures (e.0, Cleaned(e.1, useless)) in r
      {
        assert e in kept;
        var i :| 0 <= i < |kept| && kept[i] == e;
        assert r[i] == (e.0, Cleaned(e.1, useless));
      }
      forall e | e in r
        ensures e.0 !in useless && exists v :: (e.0, v) in j.fields && e.1 == Cleaned(v, useless)
      {
        var i :| 0 <= i < |r| && r[i] == e;
        assert kept[i] in j.fields;
      }
    }
  }

  /** Cleaning a well-formed tree yields a well-formed tree. */
  lemma {:induction false} CleanedWellFormed(j: Json, useless: seq<string>)
    requires WellFormed(j)
    ensures WellFormed(Cleaned(j, useless))
    decreases j
  {
    match j
    case Arr(items) =>
      forall i | 0 <= i < |items| ensures WellFormed(Cleaned(items[i], useless)) {
        CleanedWellFormed(items[i], useless);
      }
    case Obj(fields) =>
      var kept := Kept(fields, useless);
      KeptDistinct(fields, useless);
      KeptMembers(fields, useless);
      var r := Cleaned(j, useless).fields;
      assert Keys(r) == Keys(kept);
      forall i | 0 <= i < |kept| ensures WellFormed(Cleaned(kept[i].1, useless)) {
        var n :| 0 <= n < |fields| && fields[n] == kept[i];
        CleanedWellFormed(fields[n].1, useless);
      }
    case _ =>
  }

  /**
   * The procedure itself: it walks a snapshot of each dictionary's entries, drops the useless
   * ones and cleans the values of the others, and cleans every list element.
   */
  method RemoveUnnecessaryKeys(j: Json, useless: seq<string>) returns (r: Json)
    ensures r == Cleaned(j, useless)
    decreases j
  {
    match j {
      case Obj(fields) =>
        var snapshot := fields;
        var kept: Dict<Json> := [];
        var i := 0;
        while i < |snapshot|
          invariant 0 <= i <= |snapshot|
          invariant var k := Kept(snapshot[..i], useless);
            kept == seq(|k|, n requires 0 <= n < |k| => (k[n].0, Cleaned(k[n].1, useless)))
        {
          var key, value := snapshot[i].0, snapshot[i].1;
          assert snapshot[..i + 1] == snapshot[..i] + [snapshot[i]];
          KeptAppend(snapshot[..i], [snapshot[i]], useless);
          if key !in useless {
            var v := RemoveUnnecessaryKeys(value, useless);
            kept := kept + [(key, v)];
          }
          i := i + 1;
        }
        assert snapshot[..i] == fields;
        r := Obj(kept);
      case Arr(items) =>
        var cleaned: seq<Json> := [];
        var i := 0;
        while i < |items|
          invariant 0 <= i <= |items|
          invariant cleaned == seq(i, n requires 0 <= n < i => Cleaned(items[n], useless))
        {
          var v := RemoveUnnecessaryKeys(items[i], useless);
          cleaned := cleaned + [v];
          i := i + 1;
        }
        r := Arr(cleaned);
      case _ =>
        r := j;
    }
  }
}
