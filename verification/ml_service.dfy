/** The read and delete side of `MLService`: prediction with a stored
    model, listing, lookup and deletion of a tenant's models, all keyed by
    the file names `<tenant>_<model>.joblib` and
    `<tenant>_<model>_metadata.json` in `models/`. */
module MLService {
  import opened Common
  import opened Tables
  import opened Models
  import opened Artifacts
  import opened Training

  /** `model.predict(data)` of a loaded fitted pipeline; the numbers are
      the learning library's and stay uninterpreted. */
  type Predictor = (Trained, Table) -> Result<seq<Value>, Exception>

  /** `predict`: load `<tenant>_<model>.joblib` and apply it. A missing file
      raises `FileNotFoundError` with the path; a file that does not load as
      a pipeline raises while loading. */
  function Predict(models: Dir, modelId: string, tenant: string, data: Table, predictWith: Predictor)
    : (r: Result<seq<Value>, Exception>)
    ensures var name := ModelFileName(tenant, modelId);
            && (name !in models ==> r == Err(FileNotFound("Model not found: models/" + name)))
            && (name in models && models[name].ModelFile? ==> r == predictWith(models[name].trained, data))
            && (name in models && !models[name].ModelFile? ==> r == Err(Undecodable("models/" + name)))
  {
    var name := ModelFileName(tenant, modelId);
    if name !in models then Err(FileNotFound("Model not found: models/" + name))
    else match models[name]
      case ModelFile(m) => predictWith(m, data)
      case _ => Err(Undecodable("models/" + name))
  }

  /** The file names `list_models` opens for a tenant. */
  predicate Listed(tenant: string, name: string) {
    StartsWith(name, tenant + "_") && EndsWith(name, "_metadata.json")
  }

  /** The names of a directory listing that `list_models` selects, in
      listing order. */
  function Selected(listing: seq<string>, tenant: string): (s: seq<string>)
    ensures forall n :: n in s <==> n in listing && Listed(tenant, n)
    ensures |s| <= |listing|
    ensures Distinct(listing) ==> Distinct(s)
  {
    if listing == [] then []
    else if Listed(tenant, listing[0]) then [listing[0]] + Selected(listing[1..], tenant)
    else Selected(listing[1..], tenant)
  }

  /** The files of `names`, read in order as model metadata; the first one
      that does not decode makes the whole read raise. */
  function ReadInfos(models: Dir, names: seq<string>): (r: Result<seq<ModelInfo>, Exception>)
    requires forall n :: n in names ==> n in models
    ensures r.Ok? <==> forall i :: 0 <= i < |names| ==> models[names[i]].ModelMetaFile?
    ensures r.Ok? ==> |r.value| == |names| && forall i :: 0 <= i < |names| ==> r.value[i] == InfoOf(models[names[i]].model)
    ensures r.Err? ==> exists i :: 0 <= i < |names| && !models[names[i]].ModelMetaFile?
                                   && r.error == Undecodable("models/" + names[i])
  {
    if names == [] then Ok([])
    else match models[names[0]]
      case ModelMetaFile(m) =>
        (match ReadInfos(models, names[1..])
         case Ok(infos) => Ok([InfoOf(m)] + infos)
         case Err(e) => Err(e))
      case _ => Err(Undecodable("models/" + names[0]))
  }

  /** `list_models`: the listing (`os.listdir`: every file of the directory
      once, in an order the platform chooses, which is therefore a
      parameter) is filtered to the tenant's metadata files, and each is
      read into a `ModelInfo`; the first file that does not decode as model
      metadata makes the whole call raise. So every metadata file the
      tenant's prefix selects is listed, exactly once. */
  function ListModels(models: Dir, listing: seq<string>, tenant: string): (r: Result<seq<ModelInfo>, Exception>)
    requires (forall n :: n in listing <==> n in models) && Distinct(listing)
    ensures var s := Selected(listing, tenant);
            && (forall n :: n in s <==> n in models && Listed(tenant, n))
            && Distinct(s)
            && (r.Ok? <==> forall i :: 0 <= i < |s| ==> models[s[i]].ModelMetaFile?)
            && (r.Ok? ==> |r.value| == |s| && forall i :: 0 <= i < |s| ==> r.value[i] == InfoOf(models[s[i]].model))
            && (r.Err? ==> exists i :: 0 <= i < |s| && !models[s[i]].ModelMetaFile? && r.error == Undecodable("models/" + s[i]))
  {
    ReadInfos(models, Selected(listing, tenant))
  }

  /** Every model a tenant lists has its metadata under a name the tenant
      owns, and, for tenant ids that are separated, never under a name the
      other one owns. */
  lemma ListedOwned(listing: seq<string>, a: string, b: string)
    requires Separated(a, b)
    ensures forall n :: n in Selected(listing, a) ==> Owned(a, n) && !Owned(b, n)
  {
    forall n | n in Selected(listing, a) ensures !Owned(b, n) {
      OwnershipDisjoint(a, b, n);
    }
  }

  /** Without the precondition isolation fails: tenant "a" lists the model
      that tenant "a_b" trained. */
  lemma ListingCollision(m: ModelMetadata)
    ensures var name := MetadataName("a_b", "m");
            ListModels(map[name := ModelMetaFile(m)], [name], "a") == Ok([InfoOf(m)])
  {
    var name := MetadataName("a_b", "m");
    var d := map[name := ModelMetaFile(m)];
    assert name == "a_b_m_metadata.json";
    assert name[..2] == "a_";
    assert name[|name| - |"_metadata.json"|..] == "_metadata.json";
    assert Listed("a", name);
    var s := Selected([name], "a");
    assert name in s && |s| == 1;
    var r := ListModels(d, [name], "a");
    assert r.Ok?;
    assert |r.value| == 1 && r.value[0] == InfoOf(m);
    assert r.value == [InfoOf(m)];
  }

  /** `get_model_info`: `None` when the metadata file is missing. */
  function GetModelInfo(models: Dir, modelId: string, tenant: string): (r: Result<Option<ModelInfo>, Exception>)
    ensures var name := MetadataName(tenant, modelId);
            && (r == Ok(None) <==> name !in models)
            && (r.Ok? && r.value.Some? <==> name in models && models[name].ModelMetaFile?)
            && (r.Ok? && r.value.Some? ==> r.value.value == InfoOf(models[name].model))
            && (r.Err? ==> r.error == Undecodable("models/" + name))
  {
    var name := MetadataName(tenant, modelId);
    if name !in models then Ok(None)
    else match models[name]
      case ModelMetaFile(m) => Ok(Some(InfoOf(m)))
      case _ => Err(Undecodable("models/" + name))
  }

  /** `delete_model`: the model file and then its metadata; see `RemovePair`. */
  function DeleteModel(models: Dir, modelId: string, tenant: string, fault: RemoveFault)
    : (r: Result<(bool, Dir), Exception>)
    ensures var modelName := ModelFileName(tenant, modelId);
            var metaName := MetadataName(tenant, modelId);
            && (r.Err? <==> modelName !in models || metaName !in models)
            && (r.Err? ==> r.error == FileNotFound("Model not found: " + modelId))
            && (r.Ok? && r.value.0 ==> r.value.1 == models - {modelName, metaName})
            && (r.Ok? ==> forall n :: n in r.value.1 ==> n in models && r.value.1[n] == models[n])
            && (r.Ok? && !r.value.0 ==> metaName in r.value.1)
  {
    var modelName := ModelFileName(tenant, modelId);
    var metaName := MetadataName(tenant, modelId);
    NamesDiffer(tenant, modelId);
    match RemovePair(models, modelName, metaName, FileNotFound("Model not found: " + modelId), fault)
    case Err(e) => Err(e)
    case Ok((done, dir)) =>
      assert done ==> dir == models - {modelName, metaName};
      Ok((done, dir))
  }

  /** A failed second removal orphans the metadata: the model is gone, it is
      still listed and looked up, and it can no longer be deleted. */
  lemma DeleteOrphansMetadata(models: Dir, modelId: string, tenant: string)
    requires ModelFileName(tenant, modelId) in models
    requires MetadataName(tenant, modelId) in models && models[MetadataName(tenant, modelId)].ModelMetaFile?
    ensures var r := DeleteModel(models, modelId, tenant, SecondRemoveFails);
            && r.Ok? && !r.value.0
            && ModelFileName(tenant, modelId) !in r.value.1
            && GetModelInfo(r.value.1, modelId, tenant) == GetModelInfo(models, modelId, tenant)
            && GetModelInfo(r.value.1, modelId, tenant).Ok? && GetModelInfo(r.value.1, modelId, tenant).value.Some?
            && DeleteModel(r.value.1, modelId, tenant, NoFault) == Err(FileNotFound("Model not found: " + modelId))
  {
    NamesDiffer(tenant, modelId);
  }

  // ---- What one tenant sees ----

  /** Two directories that look the same to tenant `b` give `b` the same
      prediction, the same lookup and the same deletion outcome. */
  lemma SameViewSameAnswers(d1: Dir, d2: Dir, b: string, modelId: string, data: Table, predictWith: Predictor,
                            fault: RemoveFault)
    requires View(b, d1) == View(b, d2)
    ensures Predict(d1, modelId, b, data, predictWith) == Predict(d2, modelId, b, data, predictWith)
    ensures GetModelInfo(d1, modelId, b) == GetModelInfo(d2, modelId, b)
    ensures var r1 := DeleteModel(d1, modelId, b, fault);
            var r2 := DeleteModel(d2, modelId, b, fault);
            && r1.Err? == r2.Err?
            && (r1.Ok? ==> r1.value.0 == r2.value.0 && View(b, r1.value.1) == View(b, r2.value.1))
  {
    var modelName := ModelFileName(b, modelId);
    var metaName := MetadataName(b, modelId);
    NamesOwned(b, modelId);
    assert modelName in d1 <==> modelName in View(b, d1);
    assert metaName in d1 <==> metaName in View(b, d1);
    var r1 := DeleteModel(d1, modelId, b, fault);
    var r2 := DeleteModel(d2, modelId, b, fault);
    if r1.Ok? {
      NamesDiffer(b, modelId);
      assert View(b, r1.value.1) == View(b, r2.value.1);
    }
  }

  /** Two directories that look the same to tenant `b` list the same files
      for `b`, and the same models when the platform lists those files in
      the same order. */
  lemma SameViewSameListing(d1: Dir, l1: seq<string>, d2: Dir, l2: seq<string>, b: string)
    requires (forall n :: n in l1 <==> n in d1) && Distinct(l1)
    requires (forall n :: n in l2 <==> n in d2) && Distinct(l2)
    requires View(b, d1) == View(b, d2)
    ensures forall n :: n in Selected(l1, b) <==> n in Selected(l2, b)
    ensures Selected(l1, b) == Selected(l2, b) ==> ListModels(d1, l1, b) == ListModels(d2, l2, b)
  {
    forall n | Listed(b, n) ensures n in d1 <==> n in d2 {
      assert Owned(b, n);
      assert n in d1 <==> n in View(b, d1);
    }
    var s := Selected(l1, b);
    if s == Selected(l2, b) {
      SameViewSameInfos(d1, d2, b, s);
    }
  }

  lemma {:induction false} SameViewSameInfos(d1: Dir, d2: Dir, b: string, names: seq<string>)
    requires forall n :: n in names ==> n in d1 && n in d2 && Owned(b, n)
    requires View(b, d1) == View(b, d2)
    ensures ReadInfos(d1, names) == ReadInfos(d2, names)
  {
    if names != [] {
      assert d1[names[0]] == View(b, d1)[names[0]];
      SameViewSameInfos(d1, d2, b, names[1..]);
    }
  }

  /** A training run of tenant `a` is invisible to a separated tenant `b`:
      `b` sees the same `models` directory before and after, and therefore
      the same lookups, predictions and deletions. */
  lemma TrainingInvisible(job: Job, request: TrainingRequest, disk: Disk, learner: Learner, modelId: string,
                          now: string, seconds: real, b: string, otherId: string, data: Table,
                          predictWith: Predictor)
    requires Separated(request.tenantId, b)
    ensures var after := Train(job, request, disk, learner, modelId, now, seconds).disk;
            && after.datasets == disk.datasets
            && View(b, after.models) == View(b, disk.models)
            && GetModelInfo(after.models, otherId, b) == GetModelInfo(disk.models, otherId, b)
            && Predict(after.models, otherId, b, data, predictWith) == Predict(disk.models, otherId, b, data, predictWith)
  {
    var after := Train(job, request, disk, learner, modelId, now, seconds).disk;
    Outcome(job, request, disk, learner, modelId, now, seconds);
    NamesOwned(request.tenantId, modelId);
    ViewUnchanged(request.tenantId, b, disk.models, after.models);
    SameViewSameAnswers(after.models, disk.models, b, otherId, data, predictWith, NoFault);
  }

  /** Deleting a model of tenant `a` is invisible to a separated tenant `b`. */
  lemma DeletionInvisible(models: Dir, modelId: string, a: string, b: string, fault: RemoveFault)
    requires Separated(a, b)
    ensures var r := DeleteModel(models, modelId, a, fault);
            r.Ok? ==> View(b, r.value.1) == View(b, models)
  {
    var r := DeleteModel(models, modelId, a, fault);
    if r.Ok? {
      NamesOwned(a, modelId);
      ViewUnchanged(a, b, r.value.1, models);
    }
  }

  /** The fitted pipeline a completed run stores. */
  lemma CompletedPrepared(job: Job, request: TrainingRequest, disk: Disk, learner: Learner, modelId: string,
                          now: string, seconds: real) returns (p: Prepared)
    requires Last(Train(job, request, disk, learner, modelId, now, seconds).trace).status == Completed
    ensures Prepare(request, disk.datasets, learner) == Ok(p)
    ensures var models := Train(job, request, disk, learner, modelId, now, seconds).disk.models;
            && ModelFileName(request.tenantId, modelId) in models
            && models[ModelFileName(request.tenantId, modelId)] == ModelFile(p.model)
  {
    TraceAt(job, request, disk, learner, modelId, now, seconds);
    var a := Stages(request, disk, learner, modelId, now, seconds);
    assert a.result.Ok?;
    p := Prepare(request, disk.datasets, learner).value;
  }

  /** After a completed run the new model predicts with the pipeline the run
      fitted and is found by its id, with the run's metrics. */
  lemma TrainThenLookup(job: Job, request: TrainingRequest, disk: Disk, learner: Learner, modelId: string,
                        now: string, seconds: real, data: Table, predictWith: Predictor)
    requires Last(Train(job, request, disk, learner, modelId, now, seconds).trace).status == Completed
    ensures var r := Train(job, request, disk, learner, modelId, now, seconds);
            && Predict(r.disk.models, modelId, request.tenantId, data, predictWith)
                 == predictWith(Prepare(request, disk.datasets, learner).value.model, data)
            && var info := GetModelInfo(r.disk.models, modelId, request.tenantId);
               && info.Ok? && info.value.Some?
               && info.value.value.modelId == modelId && info.value.value.tenantId == request.tenantId
               && info.value.value.metrics == Last(r.trace).metrics
  {
    var p := CompletedPrepared(job, request, disk, learner, modelId, now, seconds);
    Outcome(job, request, disk, learner, modelId, now, seconds);
  }

  /** A completed run stores the pipeline its request configures, fitted on
      the training rows the split took from the dataset as `read_csv` gives
      it back. */
  lemma TrainedOnDataset(job: Job, request: TrainingRequest, disk: Disk, learner: Learner, modelId: string,
                         now: string, seconds: real)
    requires Last(Train(job, request, disk, learner, modelId, now, seconds).trace).status == Completed
    ensures var models := Train(job, request, disk, learner, modelId, now, seconds).disk.models;
            var name := DataFileName(request.tenantId, Render(request.datasetId));
            var s := SelectColumns(request.columns);
            && name in disk.datasets && disk.datasets[name].DataFile? && s.Ok?
            && var split := learner.split(Reread(disk.datasets[name].table), s.value);
               var pipeline := BuildPipeline(request.modelType, s.value, request.trainingConfig, learner.construct);
               && split.Ok? && pipeline.Ok?
               && ModelFileName(request.tenantId, modelId) in models
               && models[ModelFileName(request.tenantId, modelId)]
                    == ModelFile(Trained(pipeline.value, s.value.target, split.value.train))
  {
    var p := CompletedPrepared(job, request, disk, learner, modelId, now, seconds);
  }

  /** What a run learns from reaches the model file: two completed runs of
      one request whose splits give different training rows store different
      models under the same name, so a predictor may tell them apart. */
  lemma DatasetReachesModel(job: Job, request: TrainingRequest, d1: Disk, d2: Disk, learner: Learner,
                            modelId: string, now: string, seconds: real)
    requires Last(Train(job, request, d1, learner, modelId, now, seconds).trace).status == Completed
    requires Last(Train(job, request, d2, learner, modelId, now, seconds).trace).status == Completed
    requires var name := DataFileName(request.tenantId, Render(request.datasetId));
             && name in d1.datasets && d1.datasets[name].DataFile?
             && name in d2.datasets && d2.datasets[name].DataFile?
             && SelectColumns(request.columns).Ok?
             && var split1 := learner.split(Reread(d1.datasets[name].table), SelectColumns(request.columns).value);
                var split2 := learner.split(Reread(d2.datasets[name].table), SelectColumns(request.columns).value);
                split1.Ok? && split2.Ok? && split1.value.train != split2.value.train
    ensures var name := ModelFileName(request.tenantId, modelId);
            var m1 := Train(job, request, d1, learner, modelId, now, seconds).disk.models;
            var m2 := Train(job, request, d2, learner, modelId, now, seconds).disk.models;
            name in m1 && name in m2 && m1[name] != m2[name]
  {
    TrainedOnDataset(job, request, d1, learner, modelId, now, seconds);
    TrainedOnDataset(job, request, d2, learner, modelId, now, seconds);
  }

  /** After a completed run the model's importances are those the run read
      from the fitted estimator, keyed by feature names of the request (see
      `ImportanceOf` for how they are paired). */
  lemma CompletedImportance(job: Job, request: TrainingRequest, disk: Disk, learner: Learner, modelId: string,
                            now: string, seconds: real)
    requires Last(Train(job, request, disk, learner, modelId, now, seconds).trace).status == Completed
    ensures var r := Train(job, request, disk, learner, modelId, now, seconds);
            var info := GetModelInfo(r.disk.models, modelId, request.tenantId);
            && info.Ok? && info.value.Some?
            && info.value.value.featureImportance == Prepare(request, disk.datasets, learner).value.importance
            && SelectColumns(request.columns).Ok?
            && (info.value.value.featureImportance.Some? ==>
                  forall n :: n in info.value.value.featureImportance.value ==>
                    n in SelectColumns(request.columns).value.features)
  {
    var p := CompletedPrepared(job, request, disk, learner, modelId, now, seconds);
    TraceAt(job, request, disk, learner, modelId, now, seconds);
  }

  /** Deleting a freshly trained model gives back the `models` directory as
      it was before the run. */
  lemma TrainThenDelete(job: Job, request: TrainingRequest, disk: Disk, learner: Learner, modelId: string,
                        now: string, seconds: real)
    requires Last(Train(job, request, disk, learner, modelId, now, seconds).trace).status == Completed
    requires ModelFileName(request.tenantId, modelId) !in disk.models
    requires MetadataName(request.tenantId, modelId) !in disk.models
    ensures var r := Train(job, request, disk, learner, modelId, now, seconds);
            DeleteModel(r.disk.models, modelId, request.tenantId, NoFault) == Ok((true, disk.models))
  {
    var r := Train(job, request, disk, learner, modelId, now, seconds);
    Outcome(job, request, disk, learner, modelId, now, seconds);
    RemovedAgain(r.disk.models, disk.models, ModelFileName(request.tenantId, modelId),
                 MetadataName(request.tenantId, modelId));
  }

  /** A directory that differs from another only in two names the other
      lacks gives it back once those two are removed. */
  lemma RemovedAgain(after: Dir, before: Dir, a: string, b: string)
    requires a !in before && b !in before
    requires forall n :: n != a && n != b ==> (n in after <==> n in before) && (n in before ==> after[n] == before[n])
    ensures after - {a, b} == before
  {
  }
}
