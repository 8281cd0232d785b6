/**
 * `API_SpecificationParser`: the offline decomposition of one API specification into per-bucket
 * path files and the manager metadata that maps every path to its file and method summaries.
 * Reading the specification file and writing the JSON files are left to the caller: the model
 * takes the loaded document and returns what would be written.
 */
module Decomposer {
  import opened Wrappers
  import opened JsonValues
  import opened KeyRemoval
  import opened Bucketing
  import opened Manifest

  /** The threshold `bucketer` is called with. */
  const DefaultThreshold: nat := 2

  /** What the parser writes: one file per bucket, then `manager_metadata.json`. */
  datatype Output = Output(buckets: Buckets, metadata: Dict<Entry>)

  /** `del API_Specification["definitions"]`: only a dictionary holding the key allows it. */
  function WithoutDefinitions(spec: Json): (r: Result<Json, Error>)
    ensures r.Ok? <==> spec.Obj? && HasKey(spec.fields, "definitions")
    ensures spec.Obj? && !HasKey(spec.fields, "definitions") ==> r == Err(KeyError("definitions"))
    ensures !spec.Obj? ==> r == Err(TypeError)
    ensures r.Ok? ==> r.value.Obj? && !HasKey(r.value.fields, "definitions")
    ensures r.Ok? ==> forall e :: e in r.value.fields <==> e in spec.fields && e.0 != "definitions"
  {
    match spec
    case Obj(fields) =>
      if HasKey(fields, "definitions") then Ok(Obj(Delete(fields, "definitions")))
      else Err(KeyError("definitions"))
    case _ => Err(TypeError)
  }

  /** The specification after its definitions and its useless keys are removed. */
  function Prepared(spec: Json): Result<Json, Error>
  {
    match WithoutDefinitions(spec)
    case Err(e) => Err(e)
    case Ok(s) => Ok(Cleaned(s, UselessKeys))
  }

  /** The whole parser, or the exception that stops it. */
  function Decompose(spec: Json): Result<Output, Error>
  {
    match Prepared(spec)
    case Err(e) => Err(e)
    case Ok(s) =>
      match Bucketed(s, DefaultThreshold)
      case Err(e) => Err(e)
      case Ok(bs) =>
        match ManifestOf(bs)
        case Err(e) => Err(e)
        case Ok(m) => Ok(Output(bs, m))
  }

  /** A document loaded by Python stays well-formed once its definitions are deleted. */
  lemma WithoutDefinitionsWellFormed(spec: Json)
    requires WellFormed(spec) && WithoutDefinitions(spec).Ok?
    ensures WellFormed(WithoutDefinitions(spec).value)
  {
    var fields := spec.fields;
    var r := Delete(fields, "definitions");
    DeleteDistinct(fields, "definitions");
    forall i | 0 <= i < |r| ensures WellFormed(r[i].1) {
      assert r[i] in fields;
      var n :| 0 <= n < |fields| && fields[n] == r[i];
    }
  }

  /** The paths of a well-formed document are distinct. */
  lemma PathsDistinct(spec: Json)
    requires WellFormed(spec) && PathsOf(spec).Ok?
    ensures DistinctKeys(PathsOf(spec).value)
  {
    var n := GetIndex(spec.fields, "paths");
    assert WellFormed(spec.fields[n].1);
  }

  /** A prepared well-formed document has distinct paths. */
  lemma PreparedPathsDistinct(spec: Json)
    requires WellFormed(spec) && Prepared(spec).Ok? && PathsOf(Prepared(spec).value).Ok?
    ensures DistinctKeys(PathsOf(Prepared(spec).value).value)
  {
    WithoutDefinitionsWellFormed(spec);
    CleanedWellFormed(WithoutDefinitions(spec).value, UselessKeys);
    PathsDistinct(Prepared(spec).value);
  }

  /**
   * For a document loaded by Python, the parser succeeds exactly when the document has
   * definitions and a dictionary of paths, every path has more than three `/`-separated parts
   * and the methods of every path can be summarised.
   */
  lemma DecomposeFails(spec: Json)
    requires WellFormed(spec)
    ensures Decompose(spec).Ok? <==>
      Prepared(spec).Ok? && PathsOf(Prepared(spec).value).Ok? &&
      (forall k :: 0 <= k < |PathsOf(Prepared(spec).value).value| ==> !ShortPath(PathsOf(Prepared(spec).value).value[k].0)) &&
      (forall p :: HasKey(PathsOf(Prepared(spec).value).value, p) ==>
        MethodSummaries(Get(PathsOf(Prepared(spec).value).value, p).value).Ok?)
  {
    if Prepared(spec).Ok? && PathsOf(Prepared(spec).value).Ok? {
      var s := Prepared(spec).value;
      var ps := PathsOf(s).value;
      BucketFromFails([], DefaultThreshold, ps);
      if Bucketed(s, DefaultThreshold).Ok? {
        PreparedPathsDistinct(spec);
        BucketedPartitions(s, DefaultThreshold);
        ManifestFails(Bucketed(s, DefaultThreshold).value, ps);
      }
    }
  }

  /**
   * What a successful run writes: the buckets partition the paths of the prepared document, and
   * the metadata has exactly those paths as keys, each mapped to the summaries of its methods
   * and the file of the bucket that holds it.
   */
  lemma DecomposeOutput(spec: Json)
    requires WellFormed(spec) && Decompose(spec).Ok?
    ensures PathsOf(Prepared(spec).value).Ok?
    ensures var ps := PathsOf(Prepared(spec).value).value; var out := Decompose(spec).value;
      Partitions(out.buckets, ps) &&
      (forall p :: HasKey(out.metadata, p) <==> HasKey(ps, p)) &&
      forall n, p :: InBucket(out.buckets, n, p) ==>
        MethodSummaries(Get(ps, p).value).Ok? &&
        Get(out.metadata, p) == Some(Entry(MethodSummaries(Get(ps, p).value).value, n + ".json"))
  {
    var s := Prepared(spec).value;
    var ps := PathsOf(s).value;
    PreparedPathsDistinct(spec);
    BucketedPartitions(s, DefaultThreshold);
    ManifestOfPartition(Bucketed(s, DefaultThreshold).value, ps);
  }

  /** The parser as the script runs it, step by step. */
  method ParseSpecification(spec: Json) returns (r: Result<Output, Error>)
    ensures r == Decompose(spec)
  {
    var s := WithoutDefinitions(spec);
    if s.Err? {
      return Err(s.error);
    }
    var cleaned := RemoveUnnecessaryKeys(s.value, UselessKeys);
    var buckets := Bucketer(cleaned, DefaultThreshold);
    if buckets.Err? {
      return Err(buckets.error);
    }
    var metadata := BuildManifest(buckets.value);
    if metadata.Err? {
      return Err(metadata.error);
    }
    return Ok(Output(buckets.value, metadata.value));
  }
}
