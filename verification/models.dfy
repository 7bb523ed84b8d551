/** The request, response and record shapes of `ml-server/models.py`, plus
    the job record and the stored metadata that the services build as
    dictionaries. Field defaults are those of the pydantic declarations. */
module Models {
  import opened Common
  import Tables

  datatype ModelType = Classification | Regression | Clustering | Custom

  /** The enum's string value, as stored in metadata and rendered in messages. */
  function ModelTypeValue(t: ModelType): string {
    match t
    case Classification => "classification"
    case Regression => "regression"
    case Clustering => "clustering"
    case Custom => "custom"
  }

  /** Validation of a request field against the enum: only the four values parse. */
  function ParseModelType(s: string): (r: Option<ModelType>)
    ensures forall t :: r == Some(t) <==> ModelTypeValue(t) == s
  {
    if s == "classification" then Some(Classification)
    else if s == "regression" then Some(Regression)
    else if s == "clustering" then Some(Clustering)
    else if s == "custom" then Some(Custom)
    else None
  }

  datatype DataType = Numeric | Categorical | Text | Datetime | Boolean

  function DataTypeValue(t: DataType): string {
    match t
    case Numeric => "numeric"
    case Categorical => "categorical"
    case Text => "text"
    case Datetime => "datetime"
    case Boolean => "boolean"
  }

  function ParseDataType(s: string): (r: Option<DataType>)
    ensures forall t :: r == Some(t) <==> DataTypeValue(t) == s
  {
    if s == "numeric" then Some(Numeric)
    else if s == "categorical" then Some(Categorical)
    else if s == "text" then Some(Text)
    else if s == "datetime" then Some(Datetime)
    else if s == "boolean" then Some(Boolean)
    else None
  }

  /** A column as a training request describes it. */
  datatype ColumnDefinition = ColumnDefinition(
    name: string,
    dataType: DataType,
    isTarget: bool,
    isFeature: bool,
    nullable: bool,
    description: Option<string>)

  /** A column definition that states only its name and type. */
  function DefineColumn(name: string, dataType: DataType): (c: ColumnDefinition)
    ensures c.name == name && c.dataType == dataType
    ensures c.isFeature && !c.isTarget && c.nullable && c.description == None
  {
    ColumnDefinition(name, dataType, false, true, true, None)
  }

  /** The values of `training_config` are handed unread to the estimator;
      they are kept here as text. */
  type Config = map<string, string>

  datatype TrainingRequest = TrainingRequest(
    tenantId: string,
    modelName: string,
    modelType: ModelType,
    datasetId: Option<string>,
    columns: seq<ColumnDefinition>,
    trainingConfig: Config,
    description: Option<string>,
    tags: seq<string>)

  /** A training request that states only the required fields. */
  function NewTrainingRequest(tenantId: string, modelName: string, modelType: ModelType,
                              columns: seq<ColumnDefinition>): (r: TrainingRequest)
    ensures r.tenantId == tenantId && r.modelName == modelName && r.modelType == modelType
    ensures r.columns == columns
    ensures r.datasetId == None && r.trainingConfig == map[] && r.description == None && r.tags == []
  {
    TrainingRequest(tenantId, modelName, modelType, None, columns, map[], None, [])
  }

  datatype TrainingResponse = TrainingResponse(
    modelId: string,
    tenantId: string,
    status: string,
    trainingJobId: string,
    message: string)

  datatype PredictionRequest = PredictionRequest(tenantId: string, modelId: string, data: Tables.Table)

  datatype PredictionResponse = PredictionResponse(
    predictions: seq<Tables.Value>,
    modelId: string,
    predictionTime: string)

  datatype JobStatus = Queued | InProgress | Completed | Failed

  function StatusValue(s: JobStatus): string {
    match s
    case Queued => "queued"
    case InProgress => "in_progress"
    case Completed => "completed"
    case Failed => "failed"
  }

  /** Training progress in tenths: the code writes 0.0, 0.1, ..., 1.0. */
  type Tenths = p: nat | p <= 10

  /** A training job record (`TrainingStatus`). `error_message` holds
      `str(e)`; the exception itself is kept, and its text is the message
      for the exceptions this code raises. */
  datatype Job = Job(
    trainingJobId: string,
    tenantId: string,
    modelId: Option<string>,
    status: JobStatus,
    startTime: string,
    endTime: Option<string>,
    progress: Tenths,
    metrics: map<string, real>,
    errorMessage: Option<Exception>)

  /** The record a training request starts with. */
  function QueuedJob(jobId: string, tenantId: string, startTime: string): (j: Job)
    ensures j.trainingJobId == jobId && j.tenantId == tenantId && j.startTime == startTime
    ensures j.status == Queued && j.progress == 0
    ensures j.modelId == None && j.endTime == None && j.metrics == map[] && j.errorMessage == None
  {
    Job(jobId, tenantId, None, Queued, startTime, None, 0, map[], None)
  }

  /** What a training run writes to `<tenant>_<model>_metadata.json`. */
  datatype ModelMetadata = ModelMetadata(
    modelId: string,
    tenantId: string,
    modelName: string,
    modelType: ModelType,
    description: Option<string>,
    tags: seq<string>,
    createdAt: string,
    updatedAt: string,
    metrics: map<string, real>,
    featureImportance: Option<map<string, real>>,
    status: string,
    version: int,
    datasetId: Option<string>,
    columns: seq<ColumnDefinition>,
    trainingConfig: Config,
    sizeBytes: nat,
    trainingSeconds: real)

  datatype ModelInfo = ModelInfo(
    modelId: string,
    tenantId: string,
    modelName: string,
    modelType: ModelType,
    description: Option<string>,
    tags: seq<string>,
    createdAt: string,
    updatedAt: string,
    metrics: map<string, real>,
    featureImportance: Option<map<string, real>>,
    status: string,
    version: int,
    sizeBytes: Option<nat>,
    trainingSeconds: Option<real>)

  /** `ModelInfo(**metadata)`: the declared fields are taken over and the
      training inputs (dataset, columns, configuration) are dropped. */
  function InfoOf(m: ModelMetadata): (i: ModelInfo)
    ensures i.modelId == m.modelId && i.tenantId == m.tenantId && i.modelName == m.modelName
    ensures i.modelType == m.modelType && i.metrics == m.metrics && i.featureImportance == m.featureImportance
    ensures i.sizeBytes == Some(m.sizeBytes) && i.trainingSeconds == Some(m.trainingSeconds)
  {
    ModelInfo(m.modelId, m.tenantId, m.modelName, m.modelType, m.description, m.tags,
              m.createdAt, m.updatedAt, m.metrics, m.featureImportance, m.status, m.version,
              Some(m.sizeBytes), Some(m.trainingSeconds))
  }

  /** `describe()`-style figures of a numeric column that has a value. */
  datatype NumericSummary = NumericSummary(mean: real, min: real, q25: real, q50: real, q75: real, max: real)

  /** One entry of `column_stats`, by dtype class. */
  datatype ColumnStats =
    | NumericStats(dtype: Tables.DType, count: nat, summary: Option<NumericSummary>, missing: nat)
    | CategoricalStats(dtype: Tables.DType, count: nat, unique: nat, top: Option<Tables.Value>,
                       freq: Option<nat>, topValues: seq<(Tables.Value, nat)>, missing: nat)
    | PlainStats(dtype: Tables.DType, count: nat, missing: nat)

  /** What an upload writes to `<tenant>_<dataset>_metadata.json`. */
  datatype DatasetMetadata = DatasetMetadata(
    datasetId: string,
    tenantId: Option<string>,
    filename: string,
    uploadTime: string,
    rows: nat,
    columns: nat,
    columnNames: seq<string>,
    columnStats: map<string, ColumnStats>)

  datatype DatasetUploadResponse = DatasetUploadResponse(
    datasetId: string,
    tenantId: string,
    filename: string,
    rows: nat,
    columns: nat,
    preview: Tables.Table,
    columnStats: map<string, ColumnStats>)

  datatype DatasetAnalysisRequest = DatasetAnalysisRequest(tenantId: string, datasetId: string, operations: seq<string>)

  const DefaultOperations: seq<string> := ["summary", "correlation", "missing_values"]

  /** An analysis request that does not list its operations. */
  function NewAnalysisRequest(tenantId: string, datasetId: string): (r: DatasetAnalysisRequest)
    ensures r.tenantId == tenantId && r.datasetId == datasetId
    ensures "summary" in r.operations && "correlation" in r.operations && "missing_values" in r.operations
    ensures "outliers" !in r.operations && "distributions" !in r.operations
  {
    DatasetAnalysisRequest(tenantId, datasetId, DefaultOperations)
  }

  datatype Summary = Summary(
    rows: nat,
    columns: nat,
    missingValues: nat,
    duplicateRows: nat,
    numericColumns: nat,
    categoricalColumns: nat,
    datetimeColumns: nat,
    memoryUsage: nat)

  datatype Distribution =
    | NumericDistribution(counts: seq<nat>, binEdges: seq<real>, skewness: real, kurtosis: real)
    | CategoricalDistribution(valueCounts: seq<(Tables.Value, nat)>, uniqueCount: nat)

  datatype AnalysisResult = AnalysisResult(
    summary: Option<Summary>,
    correlation: Option<map<string, map<string, real>>>,
    missingValues: Option<map<string, nat>>,
    outliers: Option<map<string, seq<nat>>>,
    distributions: Option<map<string, Distribution>>,
    custom: Option<map<string, string>>)

  /** `AnalysisResult()`: every section absent. */
  const EmptyAnalysis: AnalysisResult := AnalysisResult(None, None, None, None, None, None)

  datatype ModelDeleteResponse = ModelDeleteResponse(modelId: string, success: bool, message: string)
}
