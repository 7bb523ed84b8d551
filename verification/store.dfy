/** The two directories the services share, `datasets/` and `models/`, as
    maps from file name to content, and the naming scheme that is the only
    tenant boundary: every file a tenant's request touches is named
    `<tenant>_<id><suffix>`. */
module Artifacts {
  import opened Common
  import opened Tables
  import opened Models

  datatype Estimator = ForestClassifier | ForestRegressor

  /** A scikit-learn pipeline as `train_model_task` builds it: median
      imputation and scaling for the numeric features, most-frequent
      imputation and one-hot encoding for the categorical ones, and a random
      forest configured by `training_config`, as built before fitting. */
  datatype Pipeline = Pipeline(estimator: Estimator, numeric: seq<string>, categorical: seq<string>, config: Config)

  /** A pipeline after `fit`, which changes it in place: the configuration,
      the target column it learned to predict and the training rows it
      learned from. The learned parameters themselves are the learning
      library's; the model keeps what they are learned from. */
  datatype Trained = Trained(pipeline: Pipeline, target: string, rows: Table)

  /** The content of one file. `Unparsable` is a file that exists but that
      its reader cannot decode, such as one a failed write left behind. */
  datatype Blob =
    | DataFile(table: Table)
    | DatasetMetaFile(dataset: DatasetMetadata)
    | ModelFile(trained: Trained)
    | ModelMetaFile(model: ModelMetadata)
    | Unparsable

  type Dir = map<string, Blob>

  datatype Disk = Disk(datasets: Dir, models: Dir)

  /** `<tenant>_<id>.csv` in `datasets/` */
  function DataFileName(tenant: string, id: string): string {
    tenant + "_" + id + ".csv"
  }

  /** `<tenant>_<id>_metadata.json`, in either directory */
  function MetadataName(tenant: string, id: string): string {
    tenant + "_" + id + "_metadata.json"
  }

  /** `<tenant>_<id>.joblib` in `models/` */
  function ModelFileName(tenant: string, id: string): string {
    tenant + "_" + id + ".joblib"
  }

  /** A file whose name a tenant's requests can produce or select. */
  predicate Owned(tenant: string, name: string) {
    StartsWith(name, tenant + "_")
  }

  /** Two tenant ids neither of which, followed by `_`, begins the other. */
  predicate Separated(a: string, b: string) {
    a != b && !StartsWith(b, a + "_") && !StartsWith(a, b + "_")
  }

  lemma NamesOwned(tenant: string, id: string)
    ensures Owned(tenant, DataFileName(tenant, id))
    ensures Owned(tenant, MetadataName(tenant, id))
    ensures Owned(tenant, ModelFileName(tenant, id))
    ensures EndsWith(MetadataName(tenant, id), "_metadata.json")
  {
    assert DataFileName(tenant, id) == (tenant + "_") + (id + ".csv");
    assert MetadataName(tenant, id) == (tenant + "_") + (id + "_metadata.json");
    assert ModelFileName(tenant, id) == (tenant + "_") + (id + ".joblib");
    StartsWithConcat(tenant + "_", id + ".csv");
    StartsWithConcat(tenant + "_", id + "_metadata.json");
    StartsWithConcat(tenant + "_", id + ".joblib");
    EndsWithConcat(tenant + "_" + id, "_metadata.json");
  }

  /** Two owners of one name: the shorter id, with its `_`, begins the longer one. */
  lemma OwnersNest(a: string, b: string, name: string)
    ensures Owned(a, name) && Owned(b, name) && |a| <= |b| ==> a == b || StartsWith(b, a + "_")
  {
    if Owned(a, name) && Owned(b, name) && |a| <= |b| {
      PrefixesNest(name, a + "_", b + "_");
      assert (b + "_")[..|a| + 1] == a + "_";
      if |a| == |b| {
        assert a == (a + "_")[..|a|] == (b + "_")[..|b|] == b;
      } else {
        assert b[..|a| + 1] == (b + "_")[..|a| + 1];
      }
    }
  }

  /** Separated tenants own no file in common, so no name one of them
      produces or selects is one the other produces or selects. */
  lemma OwnershipDisjoint(a: string, b: string, name: string)
    requires Separated(a, b)
    ensures !(Owned(a, name) && Owned(b, name))
  {
    OwnersNest(a, b, name);
    OwnersNest(b, a, name);
  }

  /** The boundary is a naming convention, not a check: tenant "a" owns
      the metadata file of tenant "a_b", and a model id "b_m" of tenant "a"
      names the very file of model "m" of tenant "a_b". */
  lemma PrefixCollision()
    ensures !Separated("a", "a_b")
    ensures Owned("a", MetadataName("a_b", "m"))
    ensures ModelFileName("a", "b_m") == ModelFileName("a_b", "m")
    ensures MetadataName("a", "b_m") == MetadataName("a_b", "m")
  {
    assert MetadataName("a_b", "m") == "a_b_m_metadata.json";
    assert ("a_b_m_metadata.json")[..2] == "a_";
  }

  /** The part of a directory a tenant can reach. */
  function View(tenant: string, dir: Dir): (v: Dir)
    ensures forall n :: n in v <==> n in dir && Owned(tenant, n)
    ensures forall n :: n in v ==> v[n] == dir[n]
  {
    map n | n in dir && Owned(tenant, n) :: dir[n]
  }

  /** A change confined to one tenant's names leaves every separated
      tenant's view as it was. */
  lemma ViewUnchanged(a: string, b: string, d1: Dir, d2: Dir)
    requires Separated(a, b)
    requires forall n :: !Owned(a, n) ==> (n in d1 <==> n in d2)
    requires forall n :: !Owned(a, n) && n in d1 ==> d1[n] == d2[n]
    ensures View(b, d1) == View(b, d2)
  {
    forall n | Owned(b, n) ensures !Owned(a, n) {
      OwnershipDisjoint(a, b, n);
    }
  }

  /** Whether one of the two removals raises an `OSError`. */
  datatype RemoveFault = NoFault | FirstRemoveFails | SecondRemoveFails

  /** The shared shape of `delete_model` and `delete_dataset`: both files
      must exist, then they are removed one after the other; an error in a
      removal is swallowed and reported as `false`. */
  function RemovePair(dir: Dir, first: string, second: string, missing: Exception, fault: RemoveFault)
    : (r: Result<(bool, Dir), Exception>)
    requires first != second
    ensures r.Err? <==> first !in dir || second !in dir
    ensures r.Err? ==> r.error == missing
    ensures r.Ok? ==> (r.value.0 <==> first !in r.value.1 && second !in r.value.1)
    ensures r.Ok? ==> forall n :: n != first && n != second ==> (n in r.value.1 <==> n in dir)
    ensures r.Ok? ==> forall n :: n in r.value.1 ==> n in dir && r.value.1[n] == dir[n]
    ensures r.Ok? && !r.value.0 ==> second in r.value.1
  {
    if first !in dir || second !in dir then Err(missing)
    else
      match fault
      case NoFault => Ok((true, dir - {first, second}))
      case FirstRemoveFails => Ok((false, dir))
      case SecondRemoveFails => Ok((false, dir - {first}))
  }

  /** A failure in the second removal leaves the metadata without its data:
      the pair is no longer deletable and still reported by listings. */
  lemma OrphanedMetadata(dir: Dir, first: string, second: string, missing: Exception)
    requires first != second && first in dir && second in dir
    ensures var r := RemovePair(dir, first, second, missing, SecondRemoveFails);
            r.Ok? && !r.value.0 && first !in r.value.1 && second in r.value.1
            && RemovePair(r.value.1, first, second, missing, NoFault) == Err(missing)
  {
  }
}
