/** The HTTP endpoints of the ML service: each checks the tenant the API key
    acts for against the request, calls the services and maps their
    exceptions to status codes. Training jobs live in an in-memory table
    from job id to record. `tenant` is what `get_tenant_id` returned, `None`
    for the master key. */
module Api {
  import opened Common
  import opened Tables
  import opened Models
  import opened Artifacts
  import opened Training
  import opened DataService
  import opened MLService
  import opened Auth

  /** `training_jobs` */
  type Jobs = map<string, Job>

  const TenantMismatch: HttpError := HttpError(403, Fixed("Tenant ID mismatch"))
  const JobNotFound: HttpError := HttpError(404, Fixed("Training job not found"))
  const JobDenied: HttpError := HttpError(403, Fixed("Access denied to this training job"))

  /** The check the tenant-scoped endpoints start with: the request's
      tenant must be the caller's. */
  predicate Mismatch(requested: string, tenant: Option<string>) {
    tenant != Some(requested)
  }

  /** The exception handlers of `predict` and `analyze_dataset`: a missing
      file becomes 404 with a fixed text, anything else 500 with `str(e)`. */
  function Handled(e: Exception, notFound: string, prefix: string): (h: HttpError)
    ensures h.status == 404 <==> e.FileNotFound?
    ensures h.status == 404 || h.status == 500
    ensures e.FileNotFound? ==> h.detail == Fixed(notFound)
    ensures !e.FileNotFound? ==> h.detail == Because(prefix, e)
  {
    if e.FileNotFound? then HttpError(404, Fixed(notFound)) else HttpError(500, Because(prefix, e))
  }

  // ---- Training jobs ----

  /** `POST /train`: a queued record under the fresh job id, and the
      response that announces it. A request for another tenant is refused
      and creates no job. */
  function StartTraining(jobs: Jobs, request: TrainingRequest, tenant: Option<string>, jobId: string, now: string)
    : (r: (Jobs, Result<TrainingResponse, HttpError>))
    ensures r.1 == Err(TenantMismatch) <==> Mismatch(request.tenantId, tenant)
    ensures r.1.Err? ==> r.0 == jobs
    ensures r.1.Ok? ==>
              && r.1.value.modelId == "pending" && r.1.value.status == "queued"
              && r.1.value.trainingJobId == jobId && r.1.value.tenantId == request.tenantId
              && r.1.value.message == "Training job queued successfully"
              && jobId in r.0 && r.0[jobId] == QueuedJob(jobId, request.tenantId, now)
              && forall id :: id != jobId ==> (id in r.0 <==> id in jobs) && (id in jobs ==> r.0[id] == jobs[id])
  {
    if Mismatch(request.tenantId, tenant) then (jobs, Err(TenantMismatch))
    else
      (jobs[jobId := QueuedJob(jobId, request.tenantId, now)],
       Ok(TrainingResponse("pending", request.tenantId, "queued", jobId, "Training job queued successfully")))
  }

  /** `GET /training-status/{job_id}`: the record, to its own tenant only. */
  function TrainingStatusOf(jobs: Jobs, jobId: string, tenant: Option<string>): (r: Result<Job, HttpError>)
    ensures r == Err(JobNotFound) <==> jobId !in jobs
    ensures r == Err(JobDenied) <==> jobId in jobs && tenant != Some(jobs[jobId].tenantId)
    ensures r.Ok? <==> jobId in jobs && tenant == Some(jobs[jobId].tenantId)
    ensures r.Ok? ==> r.value == jobs[jobId]
  {
    if jobId !in jobs then Err(JobNotFound)
    else if tenant != Some(jobs[jobId].tenantId) then Err(JobDenied)
    else Ok(jobs[jobId])
  }

  /** The background task over the shared table: the job's record goes
      through the run's trace, and the table keeps the last record. */
  function RunJob(jobs: Jobs, jobId: string, request: TrainingRequest, disk: Disk, learner: Learner,
                  modelId: string, now: string, seconds: real): (r: (Jobs, Run))
    requires jobId in jobs
    ensures r.1 == Train(jobs[jobId], request, disk, learner, modelId, now, seconds)
    ensures jobId in r.0 && r.0[jobId] == Last(r.1.trace)
    ensures r.0[jobId].status == Completed || r.0[jobId].status == Failed
    ensures SameJob(r.0[jobId], jobs[jobId])
    ensures forall id :: id != jobId ==> (id in r.0 <==> id in jobs) && (id in jobs ==> r.0[id] == jobs[id])
  {
    var run := Train(jobs[jobId], request, disk, learner, modelId, now, seconds);
    (jobs[jobId := Last(run.trace)], run)
  }

  /** A job is visible to the tenant that queued it, first as queued and,
      after its run, with its final status; any other caller is refused. */
  lemma QueueRunPoll(jobs: Jobs, request: TrainingRequest, tenant: string, other: Option<string>, jobId: string,
                     now: string, disk: Disk, learner: Learner, modelId: string, later: string, seconds: real)
    requires tenant == request.tenantId && other != Some(tenant)
    ensures var (queued, response) := StartTraining(jobs, request, Some(tenant), jobId, now);
            && response.Ok?
            && TrainingStatusOf(queued, jobId, Some(tenant)) == Ok(QueuedJob(jobId, tenant, now))
            && TrainingStatusOf(queued, jobId, other) == Err(JobDenied)
            && var (finished, run) := RunJob(queued, jobId, request, disk, learner, modelId, later, seconds);
               && TrainingStatusOf(finished, jobId, Some(tenant)) == Ok(Last(run.trace))
               && (Last(run.trace).status == Completed || Last(run.trace).status == Failed)
               && Last(run.trace).trainingJobId == jobId && Last(run.trace).startTime == now
               && TrainingStatusOf(finished, jobId, other) == Err(JobDenied)
  {
  }

  // ---- Prediction and datasets ----

  /** `POST /predict` */
  function PredictEndpoint(models: Dir, request: PredictionRequest, tenant: Option<string>, predictWith: Predictor, now: string)
    : (r: Result<PredictionResponse, HttpError>)
    ensures r == Err(TenantMismatch) <==> Mismatch(request.tenantId, tenant)
    ensures !Mismatch(request.tenantId, tenant) && ModelFileName(request.tenantId, request.modelId) !in models ==>
              r == Err(HttpError(404, Fixed("Model not found")))
    ensures r.Err? ==> r.error.status in {403, 404, 500}
    ensures r.Ok? ==> r.value.modelId == request.modelId && r.value.predictionTime == now
                      && Ok(r.value.predictions) == Predict(models, request.modelId, request.tenantId, request.data, predictWith)
    ensures !Mismatch(request.tenantId, tenant) ==>
              var p := Predict(models, request.modelId, request.tenantId, request.data, predictWith);
              && (p.Ok? ==> r == Ok(PredictionResponse(p.value, request.modelId, now)))
              && (p.Err? ==> r == Err(Handled(p.error, "Model not found", "Prediction error: ")))
  {
    if Mismatch(request.tenantId, tenant) then Err(TenantMismatch)
    else match Predict(models, request.modelId, request.tenantId, request.data, predictWith)
      case Err(e) => Err(Handled(e, "Model not found", "Prediction error: "))
      case Ok(ps) => Ok(PredictionResponse(ps, request.modelId, now))
  }

  /** `POST /upload-dataset`: every exception, the unsupported format
      included, becomes 500. */
  function UploadEndpoint(disk: Disk, tenant: Option<string>, filename: string, content: Bytes,
                          readCsv: Reader, readExcel: Reader, datasetId: string, now: string)
    : (r: (Disk, Result<DatasetUploadResponse, HttpError>))
    ensures var o := Upload(disk, tenant, filename, content, readCsv, readExcel, datasetId, now);
            && r.0 == o.disk
            && (r.1.Ok? <==> o.response.Ok?)
            && (r.1.Ok? ==> r.1.value == o.response.value)
            && (r.1.Err? ==> r.1.error == HttpError(500, Because("Dataset upload error: ", o.response.error)))
  {
    var o := Upload(disk, tenant, filename, content, readCsv, readExcel, datasetId, now);
    match o.response
    case Ok(response) => (o.disk, Ok(response))
    case Err(e) => (o.disk, Err(HttpError(500, Because("Dataset upload error: ", e))))
  }

  /** An unsupported file name is a 500 and writes nothing. */
  lemma UnsupportedUpload(disk: Disk, tenant: Option<string>, filename: string, content: Bytes,
                          readCsv: Reader, readExcel: Reader, datasetId: string, now: string)
    requires !EndsWith(filename, ".csv") && !EndsWith(filename, ".xls") && !EndsWith(filename, ".xlsx")
    ensures UploadEndpoint(disk, tenant, filename, content, readCsv, readExcel, datasetId, now)
              == (disk, Err(HttpError(500, Because("Dataset upload error: ", ValueError("Unsupported file format: " + filename)))))
  {
  }

  /** `POST /analyze-dataset` */
  function AnalyzeEndpoint(disk: Disk, request: DatasetAnalysisRequest, tenant: Option<string>, numerics: Numerics)
    : (r: Result<AnalysisResult, HttpError>)
    ensures r == Err(TenantMismatch) <==> Mismatch(request.tenantId, tenant)
    ensures !Mismatch(request.tenantId, tenant) && DataFileName(request.tenantId, request.datasetId) !in disk.datasets ==>
              r == Err(HttpError(404, Fixed("Dataset not found")))
    ensures r.Err? ==> r.error.status in {403, 404, 500}
    ensures r.Ok? ==> Analyze(disk, request, numerics) == Ok(r.value)
    ensures !Mismatch(request.tenantId, tenant) ==>
              var a := Analyze(disk, request, numerics);
              && (a.Ok? ==> r == Ok(a.value))
              && (a.Err? ==> r == Err(Handled(a.error, "Dataset not found", "Dataset analysis error: ")))
  {
    if Mismatch(request.tenantId, tenant) then Err(TenantMismatch)
    else match Analyze(disk, request, numerics)
      case Err(e) => Err(Handled(e, "Dataset not found", "Dataset analysis error: "))
      case Ok(result) => Ok(result)
  }

  // ---- Models ----

  /** `GET /models`: the caller's tenant rendered into the prefix. */
  function ListEndpoint(models: Dir, listing: seq<string>, tenant: Option<string>): (r: Result<seq<ModelInfo>, HttpError>)
    requires (forall n :: n in listing <==> n in models) && Distinct(listing)
    ensures var l := ListModels(models, listing, Render(tenant));
            && (r.Ok? <==> l.Ok?)
            && (r.Ok? ==> r.value == l.value)
            && (r.Err? ==> r.error == HttpError(500, Because("Error listing models: ", l.error)))
  {
    match ListModels(models, listing, Render(tenant))
    case Ok(infos) => Ok(infos)
    case Err(e) => Err(HttpError(500, Because("Error listing models: ", e)))
  }

  /** `GET /models/{model_id}` as written: the 404 raised for a missing
      model is inside the `try` and is caught by the generic handler, which
      turns it into a 500. */
  function GetModelAsWritten(models: Dir, modelId: string, tenant: Option<string>): (r: Result<ModelInfo, HttpError>)
    ensures var name := MetadataName(Render(tenant), modelId);
            && (name !in models ==>
                  r == Err(HttpError(500, Because("Error getting model: ", HttpException(404, "Model not found")))))
            && (r.Ok? <==> name in models && models[name].ModelMetaFile?)
            && (r.Ok? ==> r.value == InfoOf(models[name].model))
  {
    match GetModelInfo(models, modelId, Render(tenant))
    case Ok(None) => Err(HttpError(500, Because("Error getting model: ", HttpException(404, "Model not found"))))
    case Ok(Some(info)) => Ok(info)
    case Err(e) => Err(Handled(e, "Model not found", "Error getting model: "))
  }

  /** `GET /models/{model_id}` as evidently intended: a missing model is a
      404, as with the other model endpoints. */
  function GetModel(models: Dir, modelId: string, tenant: Option<string>): (r: Result<ModelInfo, HttpError>)
    ensures var name := MetadataName(Render(tenant), modelId);
            && (r == Err(HttpError(404, Fixed("Model not found"))) <==> name !in models)
            && (r.Ok? <==> name in models && models[name].ModelMetaFile?)
            && (r.Ok? ==> r.value == InfoOf(models[name].model))
            && (r.Err? && name in models ==> r.error.status == 500)
  {
    match GetModelInfo(models, modelId, Render(tenant))
    case Ok(None) => Err(HttpError(404, Fixed("Model not found")))
    case Ok(Some(info)) => Ok(info)
    case Err(e) => Err(Handled(e, "Model not found", "Error getting model: "))
  }

  /** The two differ exactly on a missing model: 500 as written, 404 as
      intended; on every other input they agree. */
  lemma MissingModelIs500(models: Dir, modelId: string, tenant: Option<string>)
    ensures MetadataName(Render(tenant), modelId) !in models ==>
              && GetModelAsWritten(models, modelId, tenant).error.status == 500
              && GetModel(models, modelId, tenant).error.status == 404
    ensures MetadataName(Render(tenant), modelId) in models ==>
              GetModelAsWritten(models, modelId, tenant) == GetModel(models, modelId, tenant)
  {
  }

  /** `DELETE /models/{model_id}`: the service's answer, reported with a
      message chosen by it; a missing file is a 404. */
  function DeleteEndpoint(models: Dir, modelId: string, tenant: Option<string>, fault: RemoveFault)
    : (r: (Dir, Result<ModelDeleteResponse, HttpError>))
    ensures var d := DeleteModel(models, modelId, Render(tenant), fault);
            && (d.Err? ==> r == (models, Err(HttpError(404, Fixed("Model not found")))))
            && (d.Ok? ==> r.0 == d.value.1 && r.1.Ok?
                          && r.1.value.modelId == modelId && r.1.value.success == d.value.0
                          && r.1.value.message == (if d.value.0 then "Model deleted successfully" else "Failed to delete model"))
  {
    match DeleteModel(models, modelId, Render(tenant), fault)
    case Err(e) => (models, Err(Handled(e, "Model not found", "Error deleting model: ")))
    case Ok((done, dir)) =>
      (dir, Ok(ModelDeleteResponse(modelId, done, if done then "Model deleted successfully" else "Failed to delete model")))
  }

  // ---- The master key ----

  /** The default master key acts for `None`, which equals no request's
      tenant: it can queue no training, poll no job, predict with no model
      and analyse no dataset, although it passes authentication. */
  lemma MasterKeyLockedOut(jobs: Jobs, jobId: string, request: TrainingRequest, now: string,
                           models: Dir, prediction: PredictionRequest, predictWith: Predictor,
                           disk: Disk, analysis: DatasetAnalysisRequest, numerics: Numerics)
    ensures Authenticate(Some(MasterKey), NoKeyFile) == Ok(None)
    ensures StartTraining(jobs, request, None, jobId, now) == (jobs, Err(TenantMismatch))
    ensures TrainingStatusOf(jobs, jobId, None).Err?
    ensures PredictEndpoint(models, prediction, None, predictWith, now) == Err(TenantMismatch)
    ensures AnalyzeEndpoint(disk, analysis, None, numerics) == Err(TenantMismatch)
  {
    MasterActsForNone();
  }

  /** The master key's listing is that of a tenant literally named "None". */
  lemma MasterListsNone(models: Dir, listing: seq<string>)
    requires (forall n :: n in listing <==> n in models) && Distinct(listing)
    ensures ListEndpoint(models, listing, None) == ListEndpoint(models, listing, Some("None"))
  {
  }
}
