/**
 * `bucketer`: splits the Paths Object of a Swagger document into named buckets. A bucket is
 * named after the normalised path segments from the fourth one on, `threshold` of them joined
 * by `_`; when the bucket of that name already holds `threshold` paths, `threshold` is raised
 * (for the rest of the pass) and the name widened by one more segment.
 */
module Bucketing {
  import opened Wrappers
  import opened Strings
  import opened JsonValues

  /** `h.lstrip("{").rstrip("}")`: every leading `{` and then every trailing `}` removed. */
  function StripBraces(h: string): (r: string)
    ensures |r| <= |h|
    ensures forall k :: 0 <= k < |r| ==> r[k] in h
    ensures r == [] || (r[0] != '{' && r[|r| - 1] != '}')
  {
    var l := LStrip(h, '{');
    var r := RStrip(l, '}');
    assert forall k :: 0 <= k < |r| ==> r[k] == h[|h| - |l| + k];
    r
  }

  /**
   * One path segment as the comprehension of `bucketer` rewrites it: the part before the first
   * `:` loses its braces, and the text from that colon on is kept as it is.
   */
  function NormaliseSegment(s: string): string
  {
    match Find(s, ":")
    case None => StripBraces(s)
    case Some(i) => StripBraces(s[..i]) + ":" + s[i + 1..]
  }

  /** A piece with no brace at either end is left as it is by `StripBraces`, and only such a piece. */
  lemma StripBracesFixed(h: string)
    ensures StripBraces(h) == h <==> h == [] || (h[0] != '{' && h[|h| - 1] != '}')
  {
  }

  /** A segment without a colon only loses its braces, and the result has no colon either. */
  lemma NormaliseNoColon(s: string)
    requires ':' !in s
    ensures NormaliseSegment(s) == StripBraces(s)
    ensures ':' !in NormaliseSegment(s)
  {
    FindChar(s, ':');
  }

  /**
   * A segment with a colon at `i`, its first one: the part before it loses its braces and
   * everything from the colon on is kept.
   */
  lemma NormaliseColon(s: string, i: nat)
    requires i < |s| && s[i] == ':' && ':' !in s[..i]
    ensures NormaliseSegment(s) == StripBraces(s[..i]) + s[i..]
    ensures ':' !in StripBraces(s[..i])
  {
    FindFirstChar(s, ':', i);
    assert s[i..] == ":" + s[i + 1..];
  }

  /** Normalising an already normalised segment changes nothing. */
  lemma NormaliseIdempotent(s: string)
    ensures NormaliseSegment(NormaliseSegment(s)) == NormaliseSegment(s)
  {
    FindChar(s, ':');
    var r := NormaliseSegment(s);
    match Find(s, ":")
    case None =>
      NormaliseNoColon(s);
      NormaliseNoColon(r);
      StripBracesFixed(r);
    case Some(i) =>
      assert ':' !in s[..i];
      NormaliseColon(s, i);
      var h := StripBraces(s[..i]);
      assert r[..|h|] == h && r[|h|] == ':';
      NormaliseColon(r, |h|);
      StripBracesFixed(h);
      assert r[|h|..] == s[i..];
  }

  /** Path templating: `{id}` becomes `id`. */
  lemma NormaliseTemplate()
    ensures NormaliseSegment("{id}") == "id"
  {
    NoColonInTemplate();
    NormaliseNoColon("{id}");
    StripTemplate();
  }

  lemma NoColonInTemplate()
    ensures ':' !in "{id}"
  {
  }

  lemma StripTemplate()
    ensures StripBraces("{id}") == "id"
  {
    assert "{id}"[1..] == "id}";
    assert LStrip("id}", '{') == "id}";
  }

  /** A custom method suffix is kept: `{name}:cancel` becomes `name:cancel`. */
  lemma NormaliseCustomMethod()
    ensures NormaliseSegment("{name}:cancel") == "name:cancel"
  {
    CustomMethodParts();
    NormaliseColon("{name}:cancel", 6);
    StripCustomMethod();
  }

  lemma CustomMethodParts()
    ensures "{name}:cancel"[6] == ':' && "{name}:cancel"[..6] == "{name}"
    ensures ':' !in "{name}" && "{name}:cancel"[6..] == ":cancel"
    ensures "name" + ":cancel" == "name:cancel"
  {
  }

  lemma StripCustomMethod()
    ensures StripBraces("{name}") == "name"
  {
    assert "{name}"[1..] == "name}";
    assert LStrip("name}", '{') == "name}";
  }

  /** `path.split("/")` with every segment normalised. */
  function Segments(path: string): seq<string>
  {
    var parts := Split(path, "/");
    seq(|parts|, k requires 0 <= k < |parts| => NormaliseSegment(parts[k]))
  }

  function Min(a: int, b: int): int
  {
    if a <= b then a else b
  }

  /** `"_".join(path_parts[3 : 3 + threshold])`, defined only when `len(path_parts) > 3`. */
  function BucketName(parts: seq<string>, t: nat): string
    requires |parts| > 3
  {
    Join(parts[3..Min(3 + t, |parts|)], "_")
  }

  /** The bucket map: bucket name to (path to methods), both in insertion order. */
  type Buckets = Dict<Dict<Json>>

  /** The guard of the collision loop. */
  predicate Full(bs: Buckets, name: string, t: nat)
  {
    HasKey(bs, name) && |Get(bs, name).value| >= t
  }

  /** The number of entries over all buckets, counted with repetitions. */
  function Total(bs: Buckets): nat
  {
    if bs == [] then 0 else |bs[0].1| + Total(bs[1..])
  }

  lemma GetWithinTotal(bs: Buckets, name: string)
    requires HasKey(bs, name)
    ensures |Get(bs, name).value| <= Total(bs)
  {
    if bs[0].0 != name {
      assert Keys(bs) == [bs[0].0] + Keys(bs[1..]);
      GetWithinTotal(bs[1..], name);
    }
  }

  /** Every threshold from `lo` below `hi` finds its bucket full. */
  ghost predicate FullBetween(bs: Buckets, parts: seq<string>, lo: nat, hi: nat)
    requires |parts| > 3
  {
    forall u :: lo <= u < hi ==> Full(bs, BucketName(parts, u), u)
  }

  /**
   * The collision loop: the bucket name and threshold it stops at. The result is the least
   * threshold, starting from `t`, whose bucket is missing or holds fewer entries than it.
   */
  function Resolve(bs: Buckets, parts: seq<string>, t: nat): (r: (string, nat))
    requires |parts| > 3
    decreases Total(bs) - t
    ensures t <= r.1
    ensures r.0 == BucketName(parts, r.1)
    ensures !Full(bs, r.0, r.1)
    ensures FullBetween(bs, parts, t, r.1)
  {
    var name := BucketName(parts, t);
    if Full(bs, name, t) then
      GetWithinTotal(bs, name);
      var r := Resolve(bs, parts, t + 1);
      assert FullBetween(bs, parts, t, r.1) by {
        forall u | t <= u < r.1 ensures Full(bs, BucketName(parts, u), u) {
          if u > t {
            assert FullBetween(bs, parts, t + 1, r.1);
          }
        }
      }
      r
    else
      (name, t)
  }

  /** One more turn of the collision loop does not change where it stops. */
  lemma ResolveNext(bs: Buckets, parts: seq<string>, t: nat)
    requires |parts| > 3 && Full(bs, BucketName(parts, t), t)
    ensures Resolve(bs, parts, t) == Resolve(bs, parts, t + 1)
  {
  }

  /** The collision loop stops at once when the guard is false. */
  lemma ResolveStop(bs: Buckets, parts: seq<string>, t: nat)
    requires |parts| > 3 && !Full(bs, BucketName(parts, t), t)
    ensures Resolve(bs, parts, t) == (BucketName(parts, t), t)
  {
  }

  /**
   * `if name not in buckets: buckets[name] = {}` and then `buckets[name][path] = methods`: the
   * bucket, fetched or freshly created, with the path assigned into it. A new name is appended
   * with its single entry.
   */
  function Insert(bs: Buckets, name: string, path: string, methods: Json): (r: Buckets)
    ensures Get(r, name) == Some(Set(if HasKey(bs, name) then Get(bs, name).value else [], path, methods))
    ensures forall n :: n != name ==> Get(r, n) == Get(bs, n)
    ensures Keys(r) == if HasKey(bs, name) then Keys(bs) else Keys(bs) + [name]
    ensures !HasKey(bs, name) ==> r == bs + [(name, [(path, methods)])]
  {
    var bucket := if HasKey(bs, name) then Get(bs, name).value else [];
    var r := Set(bs, name, Set(bucket, path, methods));
    assert !HasKey(bs, name) ==> Keys(r) == Keys(bs) + [name] by {
      if !HasKey(bs, name) {
        assert Keys(bs + [(name, Set(bucket, path, methods))]) == Keys(bs) + [name];
      }
    }
    r
  }

  lemma InsertDistinct(bs: Buckets, name: string, path: string, methods: Json)
    requires DistinctKeys(bs)
    ensures DistinctKeys(Insert(bs, name, path, methods))
  {
    var bucket := if HasKey(bs, name) then Get(bs, name).value else [];
    SetDistinct(bs, name, Set(bucket, path, methods));
  }

  /** The path has at most three `/`-separated parts, so `path_parts[3]` raises IndexError. */
  predicate ShortPath(path: string)
  {
    |Segments(path)| <= 3
  }

  /** One iteration of the `for` loop: the new buckets and the threshold it leaves behind. */
  function Step(bs: Buckets, t: nat, path: string, methods: Json): (r: Result<(Buckets, nat), Error>)
    ensures r.Err? <==> ShortPath(path)
    ensures r.Err? ==> r.error == IndexError
    ensures r.Ok? ==> t <= r.value.1
  {
    var parts := Segments(path);
    if ShortPath(path) then Err(IndexError)
    else
      var (name, t') := Resolve(bs, parts, t);
      Ok((Insert(bs, name, path, methods), t'))
  }

  /**
   * The rest of the pass from buckets `bs` and threshold `t` over the entries `ps` still to
   * place. It fails exactly when some path has at most three `/`-separated parts, and then with
   * IndexError; the threshold only grows.
   */
  function BucketFrom(bs: Buckets, t: nat, ps: Dict<Json>): (r: Result<(Buckets, nat), Error>)
    decreases |ps|
    ensures r.Ok? ==> t <= r.value.1
    ensures r.Err? ==> r.error == IndexError
  {
    if ps == [] then Ok((bs, t))
    else
      match Step(bs, t, ps[0].0, ps[0].1)
      case Err(e) => Err(e)
      case Ok((bs', t')) => BucketFrom(bs', t', ps[1..])
  }

  /** The pass after placing the first path where the collision loop stops. */
  lemma BucketFromPlaced(bs: Buckets, t: nat, ps: Dict<Json>, name: string, t': nat)
    requires ps != [] && !ShortPath(ps[0].0)
    requires Resolve(bs, Segments(ps[0].0), t) == (name, t')
    ensures BucketFrom(bs, t, ps) == BucketFrom(Insert(bs, name, ps[0].0, ps[0].1), t', ps[1..])
  {
  }

  /** The pass raises exactly when some path has at most three `/`-separated parts. */
  lemma {:induction false} BucketFromFails(bs: Buckets, t: nat, ps: Dict<Json>)
    ensures BucketFrom(bs, t, ps).Err? <==> exists k :: 0 <= k < |ps| && ShortPath(ps[k].0)
    decreases |ps|
  {
    if ps != [] {
      var st := Step(bs, t, ps[0].0, ps[0].1);
      if st.Ok? {
        BucketFromFails(st.value.0, st.value.1, ps[1..]);
        if exists k :: 0 <= k < |ps[1..]| && ShortPath(ps[1..][k].0) {
          var k :| 0 <= k < |ps[1..]| && ShortPath(ps[1..][k].0);
          assert ps[1..][k] == ps[k + 1];
        }
        if exists k :: 0 <= k < |ps| && ShortPath(ps[k].0) {
          var k :| 0 <= k < |ps| && ShortPath(ps[k].0);
          assert k != 0;
          assert ps[1..][k - 1] == ps[k];
        }
      }
    }
  }

  /**
   * `API_Specification["paths"].items()`: a non-dictionary document cannot be subscripted, a
   * missing key raises KeyError, and a value without `.items()` raises AttributeError.
   */
  function PathsOf(spec: Json): (r: Result<Dict<Json>, Error>)
    ensures r.Ok? <==> spec.Obj? && Get(spec.fields, "paths").Some? && Get(spec.fields, "paths").value.Obj?
    ensures r.Ok? ==> Get(spec.fields, "paths") == Some(Obj(r.value))
    ensures spec.Obj? && !HasKey(spec.fields, "paths") ==> r == Err(KeyError("paths"))
  {
    match spec
    case Obj(fields) =>
      (match Get(fields, "paths")
       case None => Err(KeyError("paths"))
       case Some(v) => if v.Obj? then Ok(v.fields) else Err(AttributeError))
    case _ => Err(TypeError)
  }

  /** What `bucketer(spec, t)` returns or raises. */
  function Bucketed(spec: Json, t: nat): Result<Buckets, Error>
  {
    match PathsOf(spec)
    case Err(e) => Err(e)
    case Ok(ps) =>
      match BucketFrom([], t, ps)
      case Err(e) => Err(e)
      case Ok(res) => Ok(res.0)
  }

  /** The most entries a bucket can hold under threshold `t`: a new bucket always takes one. */
  function Cap(t: nat): nat
  {
    if t == 0 then 1 else t
  }

  /** Every bucket holds at most `c` entries. */
  ghost predicate SizesWithin(bs: Buckets, c: nat)
  {
    forall n :: HasKey(bs, n) ==> |Get(bs, n).value| <= c
  }

  /** Placing one path keeps every bucket within the (possibly raised) threshold. */
  lemma StepSizes(bs: Buckets, t: nat, path: string, methods: Json)
    requires SizesWithin(bs, Cap(t)) && Step(bs, t, path, methods).Ok?
    ensures SizesWithin(Step(bs, t, path, methods).value.0, Cap(Step(bs, t, path, methods).value.1))
  {
    var (name, t') := Resolve(bs, Segments(path), t);
    var r := Insert(bs, name, path, methods);
    assert Step(bs, t, path, methods).value == (r, t');
    forall n | HasKey(r, n) ensures |Get(r, n).value| <= Cap(t') {
      if n == name {
        var b := if HasKey(bs, name) then Get(bs, name).value else [];
        assert |Set(b, path, methods)| <= |b| + 1;
      } else {
        assert Get(r, n) == Get(bs, n);
      }
    }
  }

  /** The size invariant holds after every insertion of the pass. */
  lemma {:induction false} BucketFromSizes(bs: Buckets, t: nat, ps: Dict<Json>)
    requires SizesWithin(bs, Cap(t)) && BucketFrom(bs, t, ps).Ok?
    ensures SizesWithin(BucketFrom(bs, t, ps).value.0, Cap(BucketFrom(bs, t, ps).value.1))
    decreases |ps|
  {
    if ps != [] {
      StepSizes(bs, t, ps[0].0, ps[0].1);
      var st := Step(bs, t, ps[0].0, ps[0].1).value;
      BucketFromSizes(st.0, st.1, ps[1..]);
    }
  }

  /** With a positive threshold that bounds every bucket, the collision loop turns at most once. */
  lemma ResolveRaisesOnce(bs: Buckets, parts: seq<string>, t: nat)
    requires |parts| > 3 && t >= 1 && SizesWithin(bs, t)
    ensures Resolve(bs, parts, t).1 <= t + 1
  {
  }

  /** Each path raises the threshold by at most one. */
  lemma {:induction false} BucketFromThreshold(bs: Buckets, t: nat, ps: Dict<Json>)
    requires t >= 1 && SizesWithin(bs, t) && BucketFrom(bs, t, ps).Ok?
    ensures BucketFrom(bs, t, ps).value.1 <= t + |ps|
    decreases |ps|
  {
    if ps != [] {
      ResolveRaisesOnce(bs, Segments(ps[0].0), t);
      StepSizes(bs, t, ps[0].0, ps[0].1);
      var st := Step(bs, t, ps[0].0, ps[0].1).value;
      BucketFromThreshold(st.0, st.1, ps[1..]);
    }
  }

  /**
   * A whole pass from no buckets and a positive threshold `t0` (the source passes 2): the
   * threshold ends between `t0` and `t0` plus the number of paths, and no bucket holds more
   * entries than the final threshold.
   */
  lemma PassBounds(t0: nat, ps: Dict<Json>)
    requires t0 >= 1 && BucketFrom([], t0, ps).Ok?
    ensures t0 <= BucketFrom([], t0, ps).value.1 <= t0 + |ps|
    ensures SizesWithin(BucketFrom([], t0, ps).value.0, BucketFrom([], t0, ps).value.1)
  {
    BucketFromSizes([], t0, ps);
    BucketFromThreshold([], t0, ps);
  }

  /** Path `p` is a key of the bucket named `n`. */
  predicate InBucket(bs: Buckets, n: string, p: string)
  {
    HasKey(bs, n) && HasKey(Get(bs, n).value, p)
  }

  /** Every bucket is a non-empty dictionary with distinct keys. */
  ghost predicate ProperBuckets(bs: Buckets)
  {
    forall n :: HasKey(bs, n) ==> |Get(bs, n).value| > 0 && DistinctKeys(Get(bs, n).value)
  }

  /** Every entry of a bucket is the entry of `done` for that path. */
  ghost predicate EntriesFrom(bs: Buckets, done: Dict<Json>)
  {
    forall n, p :: InBucket(bs, n, p) ==> Get(Get(bs, n).value, p) == Get(done, p)
  }

  /** Every path of `done` is in some bucket. */
  ghost predicate Covers(bs: Buckets, done: Dict<Json>)
  {
    forall p :: HasKey(done, p) ==> exists n :: InBucket(bs, n, p)
  }

  /** No path is in two buckets. */
  ghost predicate Unique(bs: Buckets)
  {
    forall n1, n2, p :: InBucket(bs, n1, p) && InBucket(bs, n2, p) ==> n1 == n2
  }

  /**
   * The buckets partition the entries `done`: bucket names are distinct, every bucket is a
   * non-empty dictionary with distinct keys, every entry of a bucket is the entry of `done` for
   * that path, every path of `done` is in some bucket, and in only one.
   */
  ghost predicate Partitions(bs: Buckets, done: Dict<Json>)
  {
    DistinctKeys(bs) && ProperBuckets(bs) && EntriesFrom(bs, done) && Covers(bs, done) && Unique(bs)
  }

  /** A bucket of `Insert` holds a path exactly when it did before or it is the new one. */
  lemma InsertMembers(bs: Buckets, name: string, path: string, methods: Json, n: string, p: string)
    requires !InBucket(bs, name, path)
    ensures InBucket(Insert(bs, name, path, methods), n, p) <==> InBucket(bs, n, p) || (n == name && p == path)
    ensures InBucket(Insert(bs, name, path, methods), n, p) ==>
      Get(Get(Insert(bs, name, path, methods), n).value, p) == if n == name && p == path then Some(methods) else Get(Get(bs, n).value, p)
  {
    if n == name {
      var b := if HasKey(bs, name) then Get(bs, name).value else [];
      assert Set(b, path, methods) == b + [(path, methods)];
      GetAppend(b, [(path, methods)], p);
    }
  }

  lemma InsertProper(bs: Buckets, name: string, path: string, methods: Json)
    requires ProperBuckets(bs) && !InBucket(bs, name, path)
    ensures ProperBuckets(Insert(bs, name, path, methods))
  {
    var r := Insert(bs, name, path, methods);
    forall n | HasKey(r, n) ensures |Get(r, n).value| > 0 && DistinctKeys(Get(r, n).value) {
      if n == name {
        var b := if HasKey(bs, name) then Get(bs, name).value else [];
        SetDistinct(b, path, methods);
      } else {
        assert Get(r, n) == Get(bs, n);
      }
    }
  }

  lemma InsertEntries(bs: Buckets, done: Dict<Json>, name: string, path: string, methods: Json)
    requires EntriesFrom(bs, done) && !HasKey(done, path) && !InBucket(bs, name, path)
    ensures EntriesFrom(Insert(bs, name, path, methods), done + [(path, methods)])
  {
    var r := Insert(bs, name, path, methods);
    forall n, p | InBucket(r, n, p) ensures Get(Get(r, n).value, p) == Get(done + [(path, methods)], p) {
      InsertMembers(bs, name, path, methods, n, p);
      GetAppend(done, [(path, methods)], p);
    }
  }

  lemma InsertCovers(bs: Buckets, done: Dict<Json>, name: string, path: string, methods: Json)
    requires Covers(bs, done) && !InBucket(bs, name, path)
    ensures Covers(Insert(bs, name, path, methods), done + [(path, methods)])
  {
    var r := Insert(bs, name, path, methods);
    forall p | HasKey(done + [(path, methods)], p) ensures exists n :: InBucket(r, n, p) {
      GetAppend(done, [(path, methods)], p);
      if p == path {
        InsertMembers(bs, name, path, methods, name, p);
      } else {
        var n :| InBucket(bs, n, p);
        InsertMembers(bs, name, path, methods, n, p);
      }
    }
  }

  lemma InsertUnique(bs: Buckets, done: Dict<Json>, name: string, path: string, methods: Json)
    requires Unique(bs) && EntriesFrom(bs, done) && !HasKey(done, path) && !InBucket(bs, name, path)
    ensures Unique(Insert(bs, name, path, methods))
  {
    var r := Insert(bs, name, path, methods);
    forall n1, n2, p | InBucket(r, n1, p) && InBucket(r, n2, p) ensures n1 == n2 {
      InsertMembers(bs, name, path, methods, n1, p);
      InsertMembers(bs, name, path, methods, n2, p);
    }
  }

  /** Placing a path that is not yet among the placed ones extends the partition by that path. */
  lemma InsertPartitions(bs: Buckets, done: Dict<Json>, name: string, path: string, methods: Json)
    requires Partitions(bs, done) && !HasKey(done, path)
    ensures Partitions(Insert(bs, name, path, methods), done + [(path, methods)])
  {
    assert !InBucket(bs, name, path);
    InsertDistinct(bs, name, path, methods);
    InsertProper(bs, name, path, methods);
    InsertEntries(bs, done, name, path, methods);
    InsertCovers(bs, done, name, path, methods);
    InsertUnique(bs, done, name, path, methods);
  }

  /** The first of the remaining paths is not among the placed ones. */
  lemma NextIsNew(done: Dict<Json>, ps: Dict<Json>)
    requires DistinctKeys(done + ps) && ps != []
    ensures !HasKey(done, ps[0].0)
    ensures (done + [ps[0]]) + ps[1..] == done + ps
    ensures DistinctKeys((done + [ps[0]]) + ps[1..])
  {
    forall i | 0 <= i < |done| ensures Keys(done)[i] != ps[0].0 {
      assert (done + ps)[i].0 != (done + ps)[|done|].0;
    }
    assert (done + [ps[0]]) + ps[1..] == done + ps;
  }

  /** The pass extends a partition of the placed entries by all the remaining ones. */
  lemma {:induction false} BucketFromPartitions(bs: Buckets, t: nat, done: Dict<Json>, ps: Dict<Json>)
    requires Partitions(bs, done) && DistinctKeys(done + ps) && BucketFrom(bs, t, ps).Ok?
    ensures Partitions(BucketFrom(bs, t, ps).value.0, done + ps)
    decreases |ps|
  {
    if ps == [] {
      assert done + ps == done;
    } else {
      NextIsNew(done, ps);
      var (name, t') := Resolve(bs, Segments(ps[0].0), t);
      InsertPartitions(bs, done, name, ps[0].0, ps[0].1);
      BucketFromPlaced(bs, t, ps, name, t');
      BucketFromPartitions(Insert(bs, name, ps[0].0, ps[0].1), t', done + [ps[0]], ps[1..]);
    }
  }

  /**
   * Partition: when `API_Specification["paths"]` has distinct keys and the pass succeeds, every
   * path lands in exactly one bucket with its `methods` value unchanged, every bucket entry is
   * such a path, bucket names are distinct and no bucket is empty.
   */
  lemma BucketedPartitions(spec: Json, t: nat)
    requires PathsOf(spec).Ok? && DistinctKeys(PathsOf(spec).value) && Bucketed(spec, t).Ok?
    ensures Partitions(Bucketed(spec, t).value, PathsOf(spec).value)
  {
    var ps := PathsOf(spec).value;
    assert [] + ps == ps;
    BucketFromPartitions([], t, [], ps);
  }

  /**
   * The body of the `for` loop for a path with more than three parts: the collision `while`
   * loop, which raises `threshold` until the named bucket is missing or has room, and the
   * insertion into that bucket.
   */
  method Place(buckets: Buckets, threshold: nat, path: string, methods: Json, parts: seq<string>)
    returns (buckets': Buckets, threshold': nat)
    requires parts == Segments(path) && |parts| > 3
    ensures Step(buckets, threshold, path, methods) == Ok((buckets', threshold'))
  {
    threshold' := threshold;
    var name := BucketName(parts, threshold');
    while Full(buckets, name, threshold')
      invariant threshold <= threshold'
      invariant name == BucketName(parts, threshold')
      invariant Resolve(buckets, parts, threshold') == Resolve(buckets, parts, threshold)
      decreases Total(buckets) - threshold'
    {
      GetWithinTotal(buckets, name);
      ResolveNext(buckets, parts, threshold');
      threshold' := threshold' + 1;
      name := BucketName(parts, threshold');
    }
    ResolveStop(buckets, parts, threshold');
    buckets' := Insert(buckets, name, path, methods);
  }

  /** The procedure: a `for` loop over the paths, placing each one in turn. */
  method Bucketer(spec: Json, threshold0: nat) returns (r: Result<Buckets, Error>)
    ensures r == Bucketed(spec, threshold0)
  {
    var paths: Dict<Json>;
    match PathsOf(spec) {
      case Err(e) =>
        return Err(e);
      case Ok(ps) =>
        paths := ps;
    }
    var buckets: Buckets := [];
    var threshold := threshold0;
    var i := 0;
    while i < |paths|
      invariant 0 <= i <= |paths|
      invariant BucketFrom(buckets, threshold, paths[i..]) == BucketFrom([], threshold0, paths)
    {
      var path, methods := paths[i].0, paths[i].1;
      assert paths[i..][0] == paths[i] && paths[i..][1..] == paths[i + 1..];
      var parts := Segments(path);
      if |parts| <= 3 {
        assert ShortPath(path);
        return Err(IndexError);
      }
      buckets, threshold := Place(buckets, threshold, path, methods, parts);
      i := i + 1;
    }
    return Ok(buckets);
  }
}
