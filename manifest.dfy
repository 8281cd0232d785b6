/**
 * The manager metadata built from the buckets: for every path of every bucket, the file the
 * bucket is written to and, for every method of the path, that method's `summary`.
 */
module Manifest {
  import opened Wrappers
  import opened JsonValues
  import opened Bucketing

  /** `metadata[path]`: `{"methods": {method: summary, ...}, "file": bucket_name + ".json"}`. */
  datatype Entry = Entry(methods: Dict<Json>, file: string)

  /** `value["summary"]`: only a dictionary can be subscripted with a string. */
  function Summary(v: Json): (r: Result<Json, Error>)
    ensures r.Ok? <==> v.Obj? && HasKey(v.fields, "summary")
    ensures r.Ok? ==> Get(v.fields, "summary") == Some(r.value)
    ensures v.Obj? && !HasKey(v.fields, "summary") ==> r == Err(KeyError("summary"))
    ensures !v.Obj? ==> r == Err(TypeError)
  {
    match v
    case Obj(fields) =>
      (match Get(fields, "summary")
       case None => Err(KeyError("summary"))
       case Some(s) => Ok(s))
    case _ => Err(TypeError)
  }

  /**
   * The `for method in paths[path]` loop over a dictionary: the entries still to visit are
   * `fields`, the summaries gathered so far `acc`. In a Python dictionary `d[k]` during
   * `for k in d` is the value paired with `k`.
   */
  function SummariesFrom(acc: Dict<Json>, fields: Dict<Json>): Result<Dict<Json>, Error>
    decreases |fields|
  {
    if fields == [] then Ok(acc)
    else
      match Summary(fields[0].1)
      case Err(e) => Err(e)
      case Ok(s) => SummariesFrom(Set(acc, fields[0].0, s), fields[1..])
  }

  /** The integer a JSON value is as a Python list index (`bool` is a subclass of `int`). */
  function IndexOf(j: Json): Option<int>
  {
    match j
    case Num(n) => Some(n)
    case Bool(b) => Some(if b then 1 else 0)
    case _ => None
  }

  /**
   * The `for method in paths[path]` loop over a list, from its `i`-th element on: the first
   * exception `items[method]["summary"]` raises, if any. A non-integer index raises TypeError,
   * an index outside `[-len, len)` raises IndexError.
   */
  function ListError(items: seq<Json>, i: nat): Option<Error>
    decreases |items| - i
  {
    if i >= |items| then None
    else
      match IndexOf(items[i])
      case None => Some(TypeError)
      case Some(n) =>
        if n < -|items| || n >= |items| then Some(IndexError)
        else
          match Summary(items[if n < 0 then n + |items| else n])
          case Err(e) => Some(e)
          case Ok(_) => ListError(items, i + 1)
  }

  /**
   * `metadata[path]["methods"]` as the inner loop leaves it, or the exception it raises:
   * iterating a dictionary visits its keys, an empty list or string visits nothing, a non-empty
   * string's characters cannot index a string, and a scalar is not iterable.
   */
  function MethodSummaries(methods: Json): Result<Dict<Json>, Error>
  {
    match methods
    case Obj(fields) => SummariesFrom([], fields)
    case Arr(items) =>
      (match ListError(items, 0)
       case Some(e) => Err(e)
       case None => Ok([]))
    case Str(s) => if s == "" then Ok([]) else Err(TypeError)
    case _ => Err(TypeError)
  }

  /** Every method value in `fields` has a summary. */
  ghost predicate AllSummarised(fields: Dict<Json>)
  {
    forall j :: 0 <= j < |fields| ==> Summary(fields[j].1).Ok?
  }

  lemma AllSummarisedCons(fields: Dict<Json>)
    requires fields != []
    ensures AllSummarised(fields) <==> Summary(fields[0].1).Ok? && AllSummarised(fields[1..])
  {
    if Summary(fields[0].1).Ok? && AllSummarised(fields[1..]) {
      forall j | 0 < j < |fields| ensures Summary(fields[j].1).Ok? {
        assert fields[1..][j - 1] == fields[j];
      }
    }
  }

  /**
   * The loop over a dictionary of methods raises exactly when some method has no summary, and
   * then with the exception that method's lookup raises.
   */
  lemma {:induction false} SummariesFails(acc: Dict<Json>, fields: Dict<Json>)
    ensures SummariesFrom(acc, fields).Ok? <==> AllSummarised(fields)
    ensures SummariesFrom(acc, fields).Err? ==>
      exists j :: 0 <= j < |fields| && Summary(fields[j].1) == Err(SummariesFrom(acc, fields).error)
    decreases |fields|
  {
    if fields != [] {
      AllSummarisedCons(fields);
      var s := Summary(fields[0].1);
      if s.Ok? {
        SummariesFails(Set(acc, fields[0].0, s.value), fields[1..]);
        if SummariesFrom(acc, fields).Err? {
          var j :| 0 <= j < |fields[1..]| && Summary(fields[1..][j].1) == Err(SummariesFrom(acc, fields).error);
          assert fields[1..][j] == fields[j + 1];
        }
      }
    }
  }

  /** The keys of `acc` are none of the keys of `fields`. */
  ghost predicate Disjoint(acc: Dict<Json>, fields: Dict<Json>)
  {
    forall j :: 0 <= j < |fields| ==> !HasKey(acc, fields[j].0)
  }

  /** One step of the loop when the method is new: the summary is appended. */
  lemma SummaryStep(acc: Dict<Json>, fields: Dict<Json>, s: Json)
    requires fields != [] && DistinctKeys(fields) && Disjoint(acc, fields)
    ensures Set(acc, fields[0].0, s) == acc + [(fields[0].0, s)]
    ensures DistinctKeys(fields[1..]) && Disjoint(acc + [(fields[0].0, s)], fields[1..])
  {
    var acc' := acc + [(fields[0].0, s)];
    forall j | 0 <= j < |fields[1..]| ensures !HasKey(acc', fields[1..][j].0) {
      assert fields[1..][j] == fields[j + 1];
      assert fields[0].0 != fields[j + 1].0;
      GetAppend(acc, [(fields[0].0, s)], fields[j + 1].0);
    }
  }

  /** Each method of `fields` paired with its summary, in order. */
  ghost function Summarised(fields: Dict<Json>): (r: Dict<Json>)
    requires AllSummarised(fields)
    ensures |r| == |fields|
    ensures forall j :: 0 <= j < |fields| ==> r[j].0 == fields[j].0 && Summary(fields[j].1) == Ok(r[j].1)
    decreases |fields|
  {
    if fields == [] then []
    else
      AllSummarisedCons(fields);
      var rest := Summarised(fields[1..]);
      var r := [(fields[0].0, Summary(fields[0].1).value)] + rest;
      assert forall j :: 1 <= j < |fields| ==> r[j] == rest[j - 1] && fields[j] == fields[1..][j - 1];
      r
  }

  /**
   * On a dictionary with distinct keys, none of them gathered yet, the loop appends each method
   * with its summary, in order.
   */
  lemma {:induction false} SummariesShape(acc: Dict<Json>, fields: Dict<Json>)
    requires DistinctKeys(fields) && Disjoint(acc, fields) && AllSummarised(fields)
    ensures SummariesFrom(acc, fields) == Ok(acc + Summarised(fields))
    decreases |fields|
  {
    if fields == [] {
      assert acc + [] == acc;
    } else {
      var e := ShapeStep(acc, fields);
      SummariesShape(acc + [e], fields[1..]);
      Assoc(acc, [e], Summarised(fields[1..]));
    }
  }

  /** One step of `SummariesShape`: the first method's entry is appended, and leads `Summarised`. */
  lemma ShapeStep(acc: Dict<Json>, fields: Dict<Json>) returns (e: (string, Json))
    requires fields != [] && DistinctKeys(fields) && Disjoint(acc, fields) && AllSummarised(fields)
    ensures AllSummarised(fields[1..]) && DistinctKeys(fields[1..]) && Disjoint(acc + [e], fields[1..])
    ensures SummariesFrom(acc, fields) == SummariesFrom(acc + [e], fields[1..])
    ensures Summarised(fields) == [e] + Summarised(fields[1..])
  {
    AllSummarisedCons(fields);
    e := (fields[0].0, Summary(fields[0].1).value);
    SummaryStep(acc, fields, e.1);
  }

  lemma Assoc<T>(a: seq<T>, b: seq<T>, c: seq<T>)
    ensures a + b + c == a + (b + c)
  {
  }

  /**
   * `metadata[path]["methods"]` for a dictionary of methods with distinct keys: its keys in
   * their order, each with its `summary` value.
   */
  lemma ObjSummaries(fields: Dict<Json>)
    requires DistinctKeys(fields) && MethodSummaries(Obj(fields)).Ok?
    ensures var ms := MethodSummaries(Obj(fields)).value;
      |ms| == |fields| && forall j :: 0 <= j < |fields| ==> ms[j].0 == fields[j].0 && Summary(fields[j].1) == Ok(ms[j].1)
  {
    SummariesFails([], fields);
    SummariesShape([], fields);
    assert [] + Summarised(fields) == Summarised(fields);
  }

  /**
   * The methods of a path are summarised exactly when every one of them has a summary; when
   * every method value is a dictionary, the exception is KeyError for `summary`.
   */
  lemma ObjSummariesFail(fields: Dict<Json>)
    ensures MethodSummaries(Obj(fields)).Ok? <==> AllSummarised(fields)
    ensures (forall j :: 0 <= j < |fields| ==> fields[j].1.Obj?) && MethodSummaries(Obj(fields)).Err? ==>
      MethodSummaries(Obj(fields)) == Err(KeyError("summary"))
  {
    SummariesFails([], fields);
  }

  /** A loop that raises nothing from `i` on handles every later element without error. */
  lemma {:induction false} ListNoneAll(items: seq<Json>, i: nat, k: nat)
    requires ListError(items, i).None? && i <= k < |items|
    ensures IndexOf(items[k]).Some? && -|items| <= IndexOf(items[k]).value < |items|
    ensures var n := IndexOf(items[k]).value; Summary(items[if n < 0 then n + |items| else n]).Ok?
    decreases k - i
  {
    if i < k {
      ListNoneAll(items, i + 1, k);
    }
  }

  /**
   * Iterating a non-empty list always raises: an element used as an index must be an integer,
   * and the element it selects must be a dictionary, which is not an integer when its own turn
   * comes.
   */
  lemma ListRaises(items: seq<Json>)
    ensures ListError(items, 0).None? <==> items == []
    ensures MethodSummaries(Arr(items)).Ok? <==> items == []
  {
    if items != [] && ListError(items, 0).None? {
      ListNoneAll(items, 0, 0);
      var n := IndexOf(items[0]).value;
      var j := if n < 0 then n + |items| else n;
      ListNoneAll(items, 0, j);
      assert false;
    }
  }

  /** The `for path in paths` loop over one bucket: the paths still to visit are `paths`. */
  function PathsFrom(meta: Dict<Entry>, name: string, paths: Dict<Json>): Result<Dict<Entry>, Error>
    decreases |paths|
  {
    if paths == [] then Ok(meta)
    else
      match MethodSummaries(paths[0].1)
      case Err(e) => Err(e)
      case Ok(ms) => PathsFrom(Set(meta, paths[0].0, Entry(ms, name + ".json")), name, paths[1..])
  }

  /** The `for bucket_name, paths in buckets.items()` loop over the buckets still to visit. */
  function BucketsFrom(meta: Dict<Entry>, bs: Buckets): Result<Dict<Entry>, Error>
    decreases |bs|
  {
    if bs == [] then Ok(meta)
    else
      match PathsFrom(meta, bs[0].0, bs[0].1)
      case Err(e) => Err(e)
      case Ok(m) => BucketsFrom(m, bs[1..])
  }

  /** The whole manifest, or the exception that stops it. */
  function ManifestOf(bs: Buckets): Result<Dict<Entry>, Error>
  {
    BucketsFrom([], bs)
  }

  /** The methods of every path of `paths` can be summarised. */
  ghost predicate PathsSummarised(paths: Dict<Json>)
  {
    forall j :: 0 <= j < |paths| ==> MethodSummaries(paths[j].1).Ok?
  }

  lemma PathsSummarisedCons(paths: Dict<Json>)
    requires paths != []
    ensures PathsSummarised(paths) <==> MethodSummaries(paths[0].1).Ok? && PathsSummarised(paths[1..])
  {
    if MethodSummaries(paths[0].1).Ok? && PathsSummarised(paths[1..]) {
      forall j | 0 < j < |paths| ensures MethodSummaries(paths[j].1).Ok? {
        assert paths[1..][j - 1] == paths[j];
      }
    }
  }

  /** A bucket fails exactly when the methods of one of its paths cannot be summarised. */
  lemma {:induction false} PathsFails(meta: Dict<Entry>, name: string, paths: Dict<Json>)
    ensures PathsFrom(meta, name, paths).Ok? <==> PathsSummarised(paths)
    decreases |paths|
  {
    if paths != [] {
      PathsSummarisedCons(paths);
      var ms := MethodSummaries(paths[0].1);
      if ms.Ok? {
        PathsFails(Set(meta, paths[0].0, Entry(ms.value, name + ".json")), name, paths[1..]);
      }
    }
  }

  /** Every bucket of `bs` can be summarised. */
  ghost predicate BucketsSummarised(bs: Buckets)
  {
    forall c :: 0 <= c < |bs| ==> PathsSummarised(bs[c].1)
  }

  lemma BucketsSummarisedCons(bs: Buckets)
    requires bs != []
    ensures BucketsSummarised(bs) <==> PathsSummarised(bs[0].1) && BucketsSummarised(bs[1..])
  {
    if PathsSummarised(bs[0].1) && BucketsSummarised(bs[1..]) {
      forall c | 0 < c < |bs| ensures PathsSummarised(bs[c].1) {
        assert bs[1..][c - 1] == bs[c];
      }
    }
  }

  /** The manifest fails exactly when the methods of some path of some bucket cannot be summarised. */
  lemma {:induction false} BucketsFails(meta: Dict<Entry>, bs: Buckets)
    ensures BucketsFrom(meta, bs).Ok? <==> BucketsSummarised(bs)
    decreases |bs|
  {
    if bs != [] {
      BucketsSummarisedCons(bs);
      PathsFails(meta, bs[0].0, bs[0].1);
      var r := PathsFrom(meta, bs[0].0, bs[0].1);
      if r.Ok? {
        BucketsFails(r.value, bs[1..]);
      }
    }
  }

  /** The keys one bucket adds are its paths. */
  lemma {:induction false} PathsKeys(meta: Dict<Entry>, name: string, paths: Dict<Json>, p: string)
    requires PathsFrom(meta, name, paths).Ok?
    ensures HasKey(PathsFrom(meta, name, paths).value, p) <==> HasKey(meta, p) || HasKey(paths, p)
    decreases |paths|
  {
    if paths != [] {
      var q := paths[0].0;
      assert Keys(paths) == [q] + Keys(paths[1..]);
      var meta' := Set(meta, q, Entry(MethodSummaries(paths[0].1).value, name + ".json"));
      assert HasKey(meta', p) <==> HasKey(meta, p) || p == q by {
        assert Get(meta', q).Some?;
        assert p != q ==> Get(meta', p) == Get(meta, p);
      }
      PathsKeys(meta', name, paths[1..], p);
    }
  }

  /** A key that is not a path of the bucket keeps its old value. */
  lemma {:induction false} PathsGetOther(meta: Dict<Entry>, name: string, paths: Dict<Json>, p: string)
    requires PathsFrom(meta, name, paths).Ok? && !HasKey(paths, p)
    ensures Get(PathsFrom(meta, name, paths).value, p) == Get(meta, p)
    decreases |paths|
  {
    if paths != [] {
      var q := paths[0].0;
      assert Keys(paths) == [q] + Keys(paths[1..]);
      var meta' := Set(meta, q, Entry(MethodSummaries(paths[0].1).value, name + ".json"));
      PathsGetOther(meta', name, paths[1..], p);
    }
  }

  /** A path of a bucket with distinct paths is mapped to its summaries and the bucket's file. */
  lemma {:induction false} PathsGetOwn(meta: Dict<Entry>, name: string, paths: Dict<Json>, p: string)
    requires PathsFrom(meta, name, paths).Ok? && DistinctKeys(paths) && HasKey(paths, p)
    ensures MethodSummaries(Get(paths, p).value).Ok?
    ensures Get(PathsFrom(meta, name, paths).value, p) == Some(Entry(MethodSummaries(Get(paths, p).value).value, name + ".json"))
    decreases |paths|
  {
    var q := paths[0].0;
    assert Keys(paths) == [q] + Keys(paths[1..]);
    var meta' := Set(meta, q, Entry(MethodSummaries(paths[0].1).value, name + ".json"));
    assert PathsFrom(meta, name, paths) == PathsFrom(meta', name, paths[1..]);
    if q == p {
      PathsGetOther(meta', name, paths[1..], p);
    } else {
      assert DistinctKeys(paths[1..]) by {
        forall x, y | 0 <= x < y < |paths[1..]| ensures paths[1..][x].0 != paths[1..][y].0 {
          assert paths[1..][x] == paths[x + 1] && paths[1..][y] == paths[y + 1];
        }
      }
      PathsGetOwn(meta', name, paths[1..], p);
    }
  }

  /** Some bucket of `bs` holds the path `p`. */
  ghost predicate InSome(bs: Buckets, p: string)
  {
    exists c :: 0 <= c < |bs| && HasKey(bs[c].1, p)
  }

  lemma InSomeCons(bs: Buckets, p: string)
    requires bs != []
    ensures InSome(bs, p) <==> HasKey(bs[0].1, p) || InSome(bs[1..], p)
  {
    if c :| 0 <= c < |bs| && HasKey(bs[c].1, p) {
      if c > 0 {
        assert bs[1..][c - 1] == bs[c];
      }
    }
    if c :| 0 <= c < |bs[1..]| && HasKey(bs[1..][c].1, p) {
      assert bs[1..][c] == bs[c + 1];
    }
  }

  /** The keys the manifest gains from the buckets are their paths. */
  lemma {:induction false} BucketsKeys(meta: Dict<Entry>, bs: Buckets, p: string)
    requires BucketsFrom(meta, bs).Ok?
    ensures HasKey(BucketsFrom(meta, bs).value, p) <==> HasKey(meta, p) || InSome(bs, p)
    decreases |bs|
  {
    if bs != [] {
      InSomeCons(bs, p);
      var m := PathsFrom(meta, bs[0].0, bs[0].1).value;
      PathsKeys(meta, bs[0].0, bs[0].1, p);
      BucketsKeys(m, bs[1..], p);
    }
  }

  /** A key that is in none of the buckets keeps its old value. */
  lemma {:induction false} BucketsGetOther(meta: Dict<Entry>, bs: Buckets, p: string)
    requires BucketsFrom(meta, bs).Ok? && !InSome(bs, p)
    ensures Get(BucketsFrom(meta, bs).value, p) == Get(meta, p)
    decreases |bs|
  {
    if bs != [] {
      InSomeCons(bs, p);
      var m := PathsFrom(meta, bs[0].0, bs[0].1).value;
      PathsGetOther(meta, bs[0].0, bs[0].1, p);
      BucketsGetOther(m, bs[1..], p);
    }
  }

  /**
   * A path that only the `c`-th bucket holds, in a bucket with distinct paths, is mapped to its
   * summaries and that bucket's file.
   */
  lemma {:induction false} BucketsGetOwn(meta: Dict<Entry>, bs: Buckets, p: string, c: nat)
    requires BucketsFrom(meta, bs).Ok? && c < |bs| && DistinctKeys(bs[c].1) && HasKey(bs[c].1, p)
    requires forall d :: 0 <= d < |bs| && d != c ==> !HasKey(bs[d].1, p)
    ensures MethodSummaries(Get(bs[c].1, p).value).Ok?
    ensures Get(BucketsFrom(meta, bs).value, p) == Some(Entry(MethodSummaries(Get(bs[c].1, p).value).value, bs[c].0 + ".json"))
    decreases |bs|
  {
    var m := PathsFrom(meta, bs[0].0, bs[0].1).value;
    assert BucketsFrom(meta, bs) == BucketsFrom(m, bs[1..]);
    if c == 0 {
      PathsGetOwn(meta, bs[0].0, bs[0].1, p);
      assert !InSome(bs[1..], p) by {
        if d :| 0 <= d < |bs[1..]| && HasKey(bs[1..][d].1, p) {
          assert false;
        }
      }
      BucketsGetOther(m, bs[1..], p);
    } else {
      PathsGetOther(meta, bs[0].0, bs[0].1, p);
      assert bs[1..][c - 1] == bs[c];
      forall d | 0 <= d < |bs[1..]| && d != c - 1 ensures !HasKey(bs[1..][d].1, p) {
        assert bs[1..][d] == bs[d + 1];
      }
      BucketsGetOwn(m, bs[1..], p, c - 1);
    }
  }

  /** With distinct bucket names, the `c`-th bucket is the one its name looks up. */
  lemma BucketAt(bs: Buckets, c: nat, p: string)
    requires DistinctKeys(bs) && c < |bs| && HasKey(bs[c].1, p)
    ensures InBucket(bs, bs[c].0, p) && Get(bs, bs[c].0) == Some(bs[c].1)
  {
    GetDistinct(bs, c);
  }

  /** A bucket that holds a path sits at some position of the buckets. */
  lemma BucketOf(bs: Buckets, n: string, p: string) returns (c: nat)
    requires InBucket(bs, n, p)
    ensures c < |bs| && bs[c] == (n, Get(bs, n).value) && HasKey(bs[c].1, p)
  {
    c := GetIndex(bs, n);
  }

  /**
   * The metadata for buckets that partition the paths `done`: it can be built exactly when the
   * methods of every path can be summarised, its keys are the paths, and each path is mapped to
   * the summaries of its methods and the file of the bucket that holds it.
   */
  lemma ManifestOfPartition(bs: Buckets, done: Dict<Json>)
    requires Partitions(bs, done)
    ensures ManifestOf(bs).Ok? <==> forall p :: HasKey(done, p) ==> MethodSummaries(Get(done, p).value).Ok?
    ensures ManifestOf(bs).Ok? ==> forall p :: HasKey(ManifestOf(bs).value, p) <==> HasKey(done, p)
    ensures ManifestOf(bs).Ok? ==> forall n, p :: InBucket(bs, n, p) ==>
      MethodSummaries(Get(done, p).value).Ok? &&
      Get(ManifestOf(bs).value, p) == Some(Entry(MethodSummaries(Get(done, p).value).value, n + ".json"))
  {
    ManifestFails(bs, done);
    if ManifestOf(bs).Ok? {
      forall p ensures HasKey(ManifestOf(bs).value, p) <==> HasKey(done, p) {
        ManifestKeys(bs, done, p);
      }
      forall n, p | InBucket(bs, n, p)
        ensures MethodSummaries(Get(done, p).value).Ok? &&
          Get(ManifestOf(bs).value, p) == Some(Entry(MethodSummaries(Get(done, p).value).value, n + ".json"))
      {
        ManifestGet(bs, done, n, p);
      }
    }
  }

  /** Building the metadata fails exactly when some path's methods cannot be summarised. */
  lemma ManifestFails(bs: Buckets, done: Dict<Json>)
    requires Partitions(bs, done)
    ensures ManifestOf(bs).Ok? <==> forall p :: HasKey(done, p) ==> MethodSummaries(Get(done, p).value).Ok?
  {
    BucketsFails([], bs);
    if BucketsSummarised(bs) {
      forall p | HasKey(done, p) ensures MethodSummaries(Get(done, p).value).Ok? {
        var n :| InBucket(bs, n, p);
        var c := BucketOf(bs, n, p);
        var j :| 0 <= j < |bs[c].1| && Keys(bs[c].1)[j] == p;
        GetDistinct(bs[c].1, j);
        assert PathsSummarised(bs[c].1);
      }
    } else {
      var c :| 0 <= c < |bs| && !PathsSummarised(bs[c].1);
      var j :| 0 <= j < |bs[c].1| && MethodSummaries(bs[c].1[j].1).Err?;
      var p := bs[c].1[j].0;
      assert Keys(bs[c].1)[j] == p;
      BucketAt(bs, c, p);
      GetDistinct(bs[c].1, j);
      assert HasKey(done, p);
    }
  }

  /** The keys of the metadata are the paths. */
  lemma ManifestKeys(bs: Buckets, done: Dict<Json>, p: string)
    requires Partitions(bs, done) && ManifestOf(bs).Ok?
    ensures HasKey(ManifestOf(bs).value, p) <==> HasKey(done, p)
  {
    BucketsKeys([], bs, p);
    if HasKey(done, p) {
      var n :| InBucket(bs, n, p);
      var c := BucketOf(bs, n, p);
    }
    if c :| 0 <= c < |bs| && HasKey(bs[c].1, p) {
      BucketAt(bs, c, p);
    }
  }

  /** A path is mapped to its summaries and the file of the bucket that holds it. */
  lemma ManifestGet(bs: Buckets, done: Dict<Json>, n: string, p: string)
    requires Partitions(bs, done) && ManifestOf(bs).Ok? && InBucket(bs, n, p)
    ensures MethodSummaries(Get(done, p).value).Ok?
    ensures Get(ManifestOf(bs).value, p) == Some(Entry(MethodSummaries(Get(done, p).value).value, n + ".json"))
  {
    var c := BucketOf(bs, n, p);
    forall d | 0 <= d < |bs| && d != c ensures !HasKey(bs[d].1, p) {
      if HasKey(bs[d].1, p) {
        BucketAt(bs, d, p);
        assert false;
      }
    }
    BucketsGetOwn([], bs, p, c);
  }

  /** The inner `for method in paths[path]` loop: the summaries of one path's methods. */
  method Summaries(methods: Json) returns (r: Result<Dict<Json>, Error>)
    ensures r == MethodSummaries(methods)
  {
    match methods {
      case Obj(fields) =>
        var acc: Dict<Json> := [];
        var i := 0;
        while i < |fields|
          invariant i <= |fields|
          invariant SummariesFrom(acc, fields[i..]) == SummariesFrom([], fields)
        {
          assert fields[i..][1..] == fields[i + 1..];
          var s := Summary(fields[i].1);
          if s.Err? {
            return Err(s.error);
          }
          acc := Set(acc, fields[i].0, s.value);
          i := i + 1;
        }
        return Ok(acc);
      case Arr(items) =>
        var i := 0;
        while i < |items|
          invariant i <= |items|
          invariant ListError(items, i) == ListError(items, 0)
        {
          var index := IndexOf(items[i]);
          if index.None? {
            return Err(TypeError);
          }
          var n := index.value;
          if n < -|items| || n >= |items| {
            return Err(IndexError);
          }
          var s := Summary(items[if n < 0 then n + |items| else n]);
          if s.Err? {
            return Err(s.error);
          }
          i := i + 1;
        }
        return Ok([]);
      case Str(text) =>
        if text == "" {
          return Ok([]);
        }
        return Err(TypeError);
      case _ =>
        return Err(TypeError);
    }
  }

  /** The `for path in paths` loop of one bucket, adding each path's entry to `meta`. */
  method AddBucket(meta: Dict<Entry>, name: string, paths: Dict<Json>) returns (r: Result<Dict<Entry>, Error>)
    ensures r == PathsFrom(meta, name, paths)
  {
    var m := meta;
    var i := 0;
    while i < |paths|
      invariant i <= |paths|
      invariant PathsFrom(m, name, paths[i..]) == PathsFrom(meta, name, paths)
    {
      assert paths[i..][1..] == paths[i + 1..];
      var ms := Summaries(paths[i].1);
      if ms.Err? {
        return Err(ms.error);
      }
      m := Set(m, paths[i].0, Entry(ms.value, name + ".json"));
      i := i + 1;
    }
    return Ok(m);
  }

  /** The `for bucket_name, paths in buckets.items()` loop: the whole manager metadata. */
  method BuildManifest(bs: Buckets) returns (r: Result<Dict<Entry>, Error>)
    ensures r == ManifestOf(bs)
  {
    var meta: Dict<Entry> := [];
    var b := 0;
    while b < |bs|
      invariant b <= |bs|
      invariant BucketsFrom(meta, bs[b..]) == ManifestOf(bs)
    {
      assert bs[b..][1..] == bs[b + 1..];
      var m := AddBucket(meta, bs[b].0, bs[b].1);
      if m.Err? {
        return Err(m.error);
      }
      meta := m.value;
      b := b + 1;
    }
    return Ok(meta);
  }
}
