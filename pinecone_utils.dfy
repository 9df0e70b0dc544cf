/** The vector-index lifecycle of `src/storage/pinecone_utils.py`: the remote
    service keeps a registry of named indexes, and `GetOrCreateIndex` makes
    sure the named one exists with the embedding model's dimension. */
module PineconeUtils {
  import opened Wrappers
  import opened Strings

  const Metric := "cosine"
  const ServerlessCloud := "aws"

  /** How an index was provisioned: serverless in a cloud region, or with
      the service's default (pod) provisioning when no spec is passed. */
  datatype Spec = ServerlessSpec(cloud: string, region: string) | NoSpec

  datatype IndexInfo = IndexInfo(dimension: nat, metric: string, spec: Spec)

  /** The remote service's indexes, by name. */
  type Registry = map<string, IndexInfo>

  /** A mutation the remote service carried out. */
  datatype Op = Deleted(name: string) | Created(name: string, info: IndexInfo)

  datatype IndexError =
    | DimensionMismatch(indexDimension: nat, modelDimension: nat)
    | IndexExists(name: string)
    | IndexNotFound(name: string)
    | CreateRejected(name: string)

  /** The serverless region derived from the configured environment:
      lower-cased, then every "gcp" replaced by "us-east1". */
  function Region(environment: string): string {
    ReplaceAll(Lower(environment), "gcp", "us-east1")
  }

  /** The rewritten region never names "gcp" any more. */
  lemma RegionHasNoGcp(environment: string)
    ensures !Contains(Region(environment), "gcp")
  {
    ReplaceLeavesNoOccurrence(Lower(environment), "gcp", "us-east1");
  }

  /** The rewritten region has no upper-case letter. */
  lemma RegionIsLowerCase(environment: string)
    ensures NoUpper(Region(environment))
  {
    var low := Lower(environment);
    LowerAt(environment);
    ReplaceCharacters(low, "gcp", "us-east1");
    var r := Region(environment);
    forall k | 0 <= k < |r| ensures !IsUpper(r[k]) {
      if r[k] in low {
        var j :| 0 <= j < |low| && low[j] == r[k];
      }
    }
  }

  /** An environment already in lower case and without "gcp" is used as the
      region unchanged. */
  lemma RegionKeepsPlainEnvironment(environment: string)
    requires NoUpper(environment) && !Contains(environment, "gcp")
    ensures Region(environment) == environment
  {
    LowerAt(environment);
    assert Lower(environment) == environment;
    ReplaceWithoutOccurrence(environment, "gcp", "us-east1");
  }

  /** The index `create_new_index` leaves behind: the serverless attempt's
      spec when it is accepted, otherwise the fallback's, which has none. */
  function NewIndex(dimension: nat, environment: string, serverlessRejected: bool): (info: IndexInfo)
    ensures info.dimension == dimension && info.metric == "cosine"
    ensures info.spec.NoSpec? <==> serverlessRejected
    ensures info.spec.ServerlessSpec? ==> info.spec == ServerlessSpec("aws", Region(environment))
  {
    IndexInfo(dimension, Metric,
      if serverlessRejected then NoSpec else ServerlessSpec(ServerlessCloud, Region(environment)))
  }

  function ApplyOp(registry: Registry, op: Op): Registry {
    match op
    case Deleted(name) => registry - {name}
    case Created(name, info) => registry[name := info]
  }

  function ApplyOps(registry: Registry, ops: seq<Op>): Registry
    decreases |ops|
  {
    if ops == [] then registry else ApplyOps(ApplyOp(registry, ops[0]), ops[1..])
  }

  /** What `get_or_create_index` asks of the service, given the registry it
      finds and the probed embedding dimension. */
  function GetOrCreatePlan(registry: Registry, name: string, dimension: nat, environment: string,
                           recreate: bool, serverlessRejected: bool): (r: Result<seq<Op>, IndexError>)
    // The only error: a mismatch without permission to recreate, reporting both dimensions.
    ensures r.Err? <==> name in registry && registry[name].dimension != dimension && !recreate
    ensures r.Err? ==> r.error == DimensionMismatch(registry[name].dimension, dimension)
    // Nothing is asked of the service exactly when the dimensions already agree.
    ensures r == Ok([]) <==> name in registry && registry[name].dimension == dimension
    // A permitted mismatch is one delete followed by one create.
    ensures name in registry && registry[name].dimension != dimension && recreate ==>
      r == Ok([Deleted(name), Created(name, NewIndex(dimension, environment, serverlessRejected))])
    // An absent index gets a single create and no delete.
    ensures name !in registry ==> r == Ok([Created(name, NewIndex(dimension, environment, serverlessRejected))])
    // A delete is asked for only on a permitted mismatch, and then comes first.
    ensures r.Ok? && Deleted(name) in r.value <==> r.Ok? && r.value == [Deleted(name), Created(name, NewIndex(dimension, environment, serverlessRejected))]
    // On success the index exists with the probed dimension; no other index changes.
    ensures r.Ok? ==> var after := ApplyOps(registry, r.value);
      && name in after && after[name].dimension == dimension
      && (forall other :: other != name ==> (other in after <==> other in registry))
      && (forall other :: other != name && other in registry ==> after[other] == registry[other])
  {
    var created := Created(name, NewIndex(dimension, environment, serverlessRejected));
    if name in registry then
      if registry[name].dimension == dimension then Ok([])
      else if recreate then
        ApplyOpsPair(registry, Deleted(name), created);
        Ok([Deleted(name), created])
      else Err(DimensionMismatch(registry[name].dimension, dimension))
    else
      ApplyOpsSingle(registry, created);
      Ok([created])
  }

  lemma ApplyOpsSingle(registry: Registry, op: Op)
    ensures ApplyOps(registry, [op]) == ApplyOp(registry, op)
  {
    assert [op][1..] == [];
  }

  lemma ApplyOpsPair(registry: Registry, first: Op, second: Op)
    ensures ApplyOps(registry, [first, second]) == ApplyOp(ApplyOp(registry, first), second)
  {
    assert [first, second][1..] == [second];
    ApplyOpsSingle(ApplyOp(registry, first), second);
  }

  /** Calling `get_or_create_index` again right after a successful call, with
      the same model, asks nothing of the service. */
  lemma GetOrCreateIdempotent(registry: Registry, name: string, dimension: nat, environment: string,
                              recreate: bool, serverlessRejected: bool,
                              environment': string, recreate': bool, serverlessRejected': bool)
    requires GetOrCreatePlan(registry, name, dimension, environment, recreate, serverlessRejected).Ok?
    ensures var after := ApplyOps(registry, GetOrCreatePlan(registry, name, dimension, environment, recreate, serverlessRejected).value);
      GetOrCreatePlan(after, name, dimension, environment', recreate', serverlessRejected') == Ok([])
  {
  }

  /** At most one delete and at most one create, and never a delete alone. */
  lemma GetOrCreateOpCounts(registry: Registry, name: string, dimension: nat, environment: string,
                            recreate: bool, serverlessRejected: bool)
    requires GetOrCreatePlan(registry, name, dimension, environment, recreate, serverlessRejected).Ok?
    ensures var ops := GetOrCreatePlan(registry, name, dimension, environment, recreate, serverlessRejected).value;
      && |ops| <= 2
      && (forall i :: 0 <= i < |ops| ==> ops[i].name == name)
      && (forall i :: 0 <= i < |ops| && ops[i].Deleted? ==> i == 0 && i + 1 < |ops| && ops[i + 1].Created?)
      && (ops != [] ==> ops[|ops| - 1] == Created(name, NewIndex(dimension, environment, serverlessRejected)))
  {
  }

  /** The client object `pc`: a view of the remote registry, plus the log of
      the mutations the service has carried out. */
  class PineconeClient {
    var indexes: Registry
    var ops: seq<Op>

    constructor (existing: Registry)
      ensures indexes == existing && ops == []
    {
      indexes := existing;
      ops := [];
    }

    /** `pc.list_indexes().names()` */
    function ListIndexNames(): (names: set<string>)
      reads this
      ensures forall name :: name in names <==> name in indexes
    {
      indexes.Keys
    }

    /** `pc.delete_index(name)`: the service refuses an unknown name. */
    method DeleteIndex(name: string) returns (out: Outcome<IndexError>)
      modifies this
      ensures name in old(indexes) ==> out == Pass && indexes == old(indexes) - {name} && ops == old(ops) + [Deleted(name)]
      ensures name !in old(indexes) ==> out == Fail(IndexNotFound(name)) && indexes == old(indexes) && ops == old(ops)
    {
      if name in indexes {
        indexes := indexes - {name};
        ops := ops + [Deleted(name)];
        out := Pass;
      } else {
        out := Fail(IndexNotFound(name));
      }
    }

    /** `pc.create_index(...)`: the service refuses a name already taken, and
        `rejected` stands for a refusal of the requested spec. */
    method CreateIndex(name: string, info: IndexInfo, rejected: bool) returns (out: Outcome<IndexError>)
      modifies this
      ensures out == Pass <==> name !in old(indexes) && !rejected
      ensures out == Pass ==> indexes == old(indexes)[name := info] && ops == old(ops) + [Created(name, info)]
      ensures out != Pass ==> indexes == old(indexes) && ops == old(ops)
      ensures out != Pass ==> out == Fail(if name in old(indexes) then IndexExists(name) else CreateRejected(name))
    {
      if name in indexes {
        out := Fail(IndexExists(name));
      } else if rejected {
        out := Fail(CreateRejected(name));
      } else {
        indexes := indexes[name := info];
        ops := ops + [Created(name, info)];
        out := Pass;
      }
    }
  }

  /** `delete_existing_index`: deletes the index and reports true exactly
      when it exists. */
  method DeleteExistingIndex(pc: PineconeClient, name: string) returns (deleted: bool)
    modifies pc
    ensures deleted <==> name in old(pc.indexes)
    ensures pc.indexes == old(pc.indexes) - {name}
    ensures pc.ops == old(pc.ops) + (if deleted then [Deleted(name)] else [])
  {
    if name in pc.ListIndexNames() {
      var _ := pc.DeleteIndex(name);
      return true;
    }
    return false;
  }

  /** `create_new_index`: a serverless create in the rewritten region, and on
      its failure one fallback create without a spec. */
  method CreateNewIndex(pc: PineconeClient, name: string, dimension: nat, environment: string,
                        serverlessRejected: bool) returns (out: Outcome<IndexError>)
    modifies pc
    ensures name !in old(pc.indexes) ==>
      (&& out == Pass
       && pc.indexes == old(pc.indexes)[name := NewIndex(dimension, environment, serverlessRejected)]
       && pc.ops == old(pc.ops) + [Created(name, NewIndex(dimension, environment, serverlessRejected))])
    ensures name in old(pc.indexes) ==>
      out == Fail(IndexExists(name)) && pc.indexes == old(pc.indexes) && pc.ops == old(pc.ops)
  {
    var serverless := IndexInfo(dimension, Metric, ServerlessSpec(ServerlessCloud, Region(environment)));
    out := pc.CreateIndex(name, serverless, serverlessRejected);
    if out.Fail? {
      // The fallback: same name, dimension and metric, no spec (so no region).
      out := pc.CreateIndex(name, IndexInfo(dimension, Metric, NoSpec), false);
    }
  }

  /** `get_or_create_index` with the probed `embeddingDimension`: carries out
      exactly the plan, and returns the name of the index the handle targets. */
  method GetOrCreateIndex(pc: PineconeClient, name: string, environment: string, recreate: bool,
                          embeddingDimension: nat, serverlessRejected: bool)
    returns (r: Result<string, IndexError>)
    modifies pc
    ensures match GetOrCreatePlan(old(pc.indexes), name, embeddingDimension, environment, recreate, serverlessRejected)
      case Ok(plan) => r == Ok(name) && pc.indexes == ApplyOps(old(pc.indexes), plan) && pc.ops == old(pc.ops) + plan
      case Err(e) => r == Err(e) && pc.indexes == old(pc.indexes) && pc.ops == old(pc.ops)
  {
    if name in pc.ListIndexNames() {
      var indexDimension := pc.indexes[name].dimension;
      if indexDimension != embeddingDimension {
        if recreate {
          var _ := DeleteExistingIndex(pc, name);
          // The name is free again, so the create cannot fail here.
          var _ := CreateNewIndex(pc, name, embeddingDimension, environment, serverlessRejected);
          ApplyOpsPair(old(pc.indexes), Deleted(name), Created(name, NewIndex(embeddingDimension, environment, serverlessRejected)));
        } else {
          return Err(DimensionMismatch(indexDimension, embeddingDimension));
        }
      }
    } else {
      var _ := CreateNewIndex(pc, name, embeddingDimension, environment, serverlessRejected);
      ApplyOpsSingle(old(pc.indexes), Created(name, NewIndex(embeddingDimension, environment, serverlessRejected)));
    }
    return Ok(name);
  }
}
