# ML service core in Dafny

This project models the Python side-service of the platform in Dafny (`ml-server/`). The service trains scikit-learn models for tenants, stores them on disk, predicts with them, and uploads and analyses tabular datasets. Requests are authenticated by API key. The model is functional throughout:

- the two directories `datasets/` and `models/` become a `Disk` of two maps from file name to file content;
- the in-memory `training_jobs` table becomes a map from job id to `Job` record;
- pandas, NumPy, scikit-learn and joblib become given functions (a `Reader`, a `Learner`, a `Predictor`, a `Numerics` oracle), so only the services' own decisions are modelled, together with the statistics whose definitions they fix (quartiles, IQR fences, value counts, histograms).

Modules follow the source files:

- `Models` (models.py): requests, responses and records.
- `Auth` (auth.py): key table, key lookup, tenant of a key.
- `Artifacts`: file naming, tenant ownership of file names, two-file deletion.
- `Tables` and `Stats`: the DataFrame slice and the statistics the services use.
- `DataService` (data_service.py): upload, analysis, metadata, column values, deletion.
- `Training` and `MLService` (ml_service.py): the training run, then prediction, listing, lookup and deletion.
- `Api` (main.py): the endpoints, tenant checks and exception-to-status mapping.

Behaviour a reader might not expect, which the model follows as the code has it:

- The first column marked as target wins. An empty target name counts as no target.
- The default master key has a `null` tenant, so it acts for `None`, not for "master". It is refused by every tenant-checked endpoint, and its uploads and listings use the literal tenant "None".
- A run whose metadata write fails is reported `failed`, but the model file it already wrote stays on disk.
- `GET /models/{id}` answers 500, not 404, for a missing model (see Findings).
- A run stores the estimator's importances zipped with the feature names in request order. They go to the wrong features whenever categorical features precede numeric ones or are one-hot encoded. Features that are neither numeric nor categorical (text, datetime or boolean) are dropped by the column transformer (`remainder='drop'`), and they shift the zip as well (see Findings). `Training.FeatureImportance` is the corrected pairing, proved as a reference; the run does not use it.
- A dataset is analysed, trained on and queried as `read_csv` gives it back from its file, not as it was uploaded: category and datetime columns come back as `object`, missing markers such as "NA" come back null, and a table without columns cannot be read back at all.

## Model

| member | source | states |
|---|---|---|
| Models.ParseModelType | ml-server/models.py:6-10 | exactly the four enum values parse, each to the model type whose value it is |
| Models.ParseDataType | ml-server/models.py:12-17 | exactly the five enum values parse, each to the data type whose value it is |
| Models.DefineColumn | ml-server/models.py:19-25 | a column stated by name and type is a feature, not the target, nullable and without description |
| Models.NewTrainingRequest | ml-server/models.py:27-35 | a request that omits the optional fields has no dataset id, an empty config, no description and no tags |
| Models.NewAnalysisRequest | ml-server/models.py:90-93 | an analysis request that lists no operations asks for summary, correlation and missing values, and not for outliers or distributions |
| Auth.LoadKeys | ml-server/auth.py:14-44 | no key file gives the default table; a readable file gives its records; an unreadable one gives no record |
| Auth.DefaultKeys | ml-server/auth.py:18-32 | the default table is the admin master key with a null tenant, then one read/write key `tenant_<i>_sk_<i>0987654321` for each of tenant_1 to tenant_4 |
| Auth.FirstMatch | ml-server/auth.py:53-55 | the position found carries the key and no earlier record does; none is found exactly when no record carries it |
| Auth.VerifyKey | ml-server/auth.py:46-57 | a missing or empty header is 401 "API key required"; otherwise the first record carrying the key, or 401 "Invalid API key" exactly when none does |
| Auth.TenantOf | ml-server/auth.py:59-68 | an admin key always passes and acts for its tenant entry, "master" when absent, `None` when null; any other key acts for its non-empty tenant or is 403 |
| Auth.Authenticate | ml-server/auth.py:46-68 | a missing or empty key is 401 "API key required"; a key no record carries is 401 "Invalid API key", and only then; otherwise the request acts as the tenant of the first record carrying the key, or is 403 |
| Auth.MasterActsForNone | ml-server/auth.py:18-23 | with the default table the master key acts for `None` |
| Auth.DefaultTenant | ml-server/auth.py:26-32 | with the default table the key of tenant_<i> acts for tenant_<i> |
| Auth.DefaultKeysDiffer | ml-server/auth.py:18-32 | no default key equals another default key, so each default key finds its own record |
| Auth.UnreadableLocksOut | ml-server/auth.py:39-44 | when the key file cannot be read, every request fails authentication, a present key with 401 "Invalid API key" |
| Artifacts.NamesOwned | ml-server/ml_service.py:141 | the data, metadata and model file names of a tenant begin with `<tenant>_`, so the tenant's listing prefix selects them |
| Artifacts.OwnersNest | ml-server/ml_service.py:200 | two tenants that can both produce a name are equal, or one is the other followed by `_` and more |
| Artifacts.OwnershipDisjoint | ml-server/ml_service.py:200 | tenants neither of which prefixes the other with `_` can never reach the same file |
| Artifacts.PrefixCollision | ml-server/ml_service.py:141 | tenant "a" with model "b_m" names the very files of tenant "a_b" with model "m" |
| Artifacts.View | ml-server/ml_service.py:196-205 | the part of a directory a tenant reaches is exactly its own files, with their contents; `MLService.SameViewSameAnswers` and `MLService.SameViewSameListing` show that this part decides every answer the tenant gets |
| Artifacts.ViewUnchanged | ml-server/ml_service.py:196-205 | a change to one tenant's files leaves every separated tenant's view unchanged; `MLService.TrainingInvisible` and `MLService.DeletionInvisible` apply it to training and deletion |
| Artifacts.RemovePair | ml-server/ml_service.py:217-231 | a missing file raises the not-found error; otherwise success removes both files, a failure reports false and keeps the second file, and nothing else changes |
| Artifacts.OrphanedMetadata | ml-server/ml_service.py:225-231 | a failure of the second removal deletes the first file only, and the pair can then no longer be deleted |
| Tables.Head | ml-server/data_service.py:100 | the preview has the first min(k, rows) rows of every column, under the same names |
| Tables.Present | ml-server/data_service.py:216 | the non-missing values of a column are exactly its present cells, as many as the cells that are not missing |
| Tables.CountsCoverRows | ml-server/data_service.py:49-57 | count and missing add up to the column length; count is zero exactly when every cell is missing |
| Tables.Unique | ml-server/data_service.py:216 | each present value once, nothing else, in order of first appearance |
| Tables.RereadCell | ml-server/data_service.py:41 | after writing and reading back, a cell is null exactly when it was null or a missing marker of `read_csv`, and otherwise unchanged |
| Tables.RereadColumn | ml-server/data_service.py:111 | a column read back keeps its name and length, is numeric exactly when it has rows and was numeric or reads as all missing, and is `object` otherwise |
| Tables.Reread | ml-server/data_service.py:111 | a table read back from a file with a header has the same rows and column names, no category or datetime column, and its numeric columns with rows unchanged |
| Tables.CsvRoundTrip | ml-server/data_service.py:40-41 | reading back the file of a table without columns fails with "No columns to parse from file"; any other table reads back with the same rows and column names, each column as `read_csv` re-reads it |
| Tables.RoundTripStable | ml-server/data_service.py:111 | writing a table that was read back and reading it again changes nothing |
| Stats.Sort | ml-server/data_service.py:53-55 | sorting gives an ascending permutation of the values |
| Stats.Quantile | ml-server/data_service.py:53-55 | the linearly interpolated quartile of a sorted sample lies between its smallest and largest values |
| Stats.QuantileMonotone | ml-server/data_service.py:147-148 | a higher quartile is never below a lower one, so Q1 <= Q3 |
| Stats.Fences | ml-server/data_service.py:147-151 | the IQR fences enclose the first and third quartiles |
| Stats.IqrFences | ml-server/data_service.py:149-151 | the fences lie one and a half interquartile ranges beyond the quartiles, so they enclose them and span four ranges |
| Stats.FencesOfSorted | ml-server/data_service.py:147-151 | values already in order have the fences of their own quartiles |
| Stats.OutsideRows | ml-server/data_service.py:152 | the rows reported are exactly those whose value lies outside the fences, in ascending order |
| Stats.ColumnOutliers | ml-server/data_service.py:146-154 | an all-missing column is skipped; otherwise the outlier rows are those outside the fences of its values |
| Stats.OutlierExample | ml-server/data_service.py:147-154 | in 1, 2, 3, 4, 100 the fences are -1 and 7 and only row 4 is an outlier |
| Stats.Tally | ml-server/data_service.py:60 | each distinct value once, with its number of occurrences, and nothing else |
| Stats.SortByCount | ml-server/data_service.py:60 | value counts are ordered by descending count and keep every pair |
| Stats.TopCounts | ml-server/data_service.py:60 | the first min(k, distinct) counts, descending, each a real count, none missing that is more frequent than one shown |
| Stats.Mean | ml-server/data_service.py:50 | the mean lies between the smallest and largest value |
| Stats.SortedEnds | ml-server/data_service.py:52-56 | the first and last sorted values are the minimum and maximum, both taken from the column |
| Stats.BinCounts | ml-server/data_service.py:166 | ten bins whose counts add up to the number of values |
| Stats.BinEdges | ml-server/data_service.py:166 | eleven strictly increasing edges from the smallest to the largest value |
| Stats.Histogram | ml-server/data_service.py:166-173 | ten counts adding up to the values, eleven increasing edges enclosing every value |
| DataService.SummaryOf | ml-server/data_service.py:50-56 | min and max are values of the column and bound every value; quartiles and mean lie in between, in order |
| DataService.ColumnStatsOf | ml-server/data_service.py:45-75 | numeric columns get summary figures, object and category columns their distinct count, mode with its frequency and five most frequent values with their counts, others only counts; count and missing add up to the rows; an all-missing column has no figures |
| DataService.NumericBounds | ml-server/data_service.py:52-56 | every number of a numeric column lies between the reported min and max |
| DataService.Mode | ml-server/data_service.py:65-66 | a value that occurs, with its count, and no value occurs more often |
| DataService.StatsOf | ml-server/data_service.py:44-75 | one entry per column name, with count and missing adding up to the rows |
| DataService.StatsOfColumn | ml-server/data_service.py:45-75 | with distinct names, each column's entry is that column's own statistics |
| DataService.ReadUpload | ml-server/data_service.py:32-37 | `.csv` is read as CSV, otherwise `.xls`/`.xlsx` as Excel, anything else is "Unsupported file format" |
| DataService.Upload | ml-server/data_service.py:23-102 | a parse failure changes nothing; a parsed table is stored with its metadata under the tenant's names, nothing else changes, and the response repeats shape, statistics and a five-row preview |
| DataService.UploadThenDelete | ml-server/data_service.py:229-243 | deleting a fresh upload restores the datasets directory |
| DataService.UploadThenInfo | ml-server/data_service.py:193-201 | after an upload the dataset info is the metadata it wrote, agreeing with the response in shape and statistics |
| DataService.UploadOwned | ml-server/data_service.py:40-91 | an upload touches only files the uploading tenant owns, and never the models |
| DataService.MasterUpload | ml-server/data_service.py:40-102 | the master key's upload writes files for tenant "None" and then fails the response's validation |
| DataService.NumericNames | ml-server/data_service.py:130 | exactly the names of numeric columns |
| DataService.CountOfType | ml-server/data_service.py:122-124 | no more than the columns; zero exactly when no column has the type |
| DataService.CountsPartition | ml-server/data_service.py:122-124 | every column is counted once: the numeric, object/category and datetime counts add up to the number of columns |
| DataService.TotalMissing | ml-server/data_service.py:120 | zero exactly when no cell is missing |
| DataService.Duplicates | ml-server/data_service.py:121 | zero exactly when no row repeats an earlier one; the first row never counts |
| DataService.SummaryOfTable | ml-server/data_service.py:116-126 | rows and columns of the table, type counts adding up to the columns, no missing and no duplicates exactly when there are none |
| DataService.CorrelationOf | ml-server/data_service.py:128-135 | a square matrix over exactly the numeric columns, empty for an empty table |
| DataService.MissingOf | ml-server/data_service.py:137-140 | exactly the columns with a missing cell, each with its positive count |
| DataService.OutlierRowsSpec | ml-server/data_service.py:146-154 | no values, no rows; otherwise the rows outside the fences of the column's values |
| DataService.OutliersOf | ml-server/data_service.py:142-156 | exactly the numeric columns with an outlier, each with a non-empty list |
| DataService.OutliersOfColumn | ml-server/data_service.py:142-156 | with distinct names, a column is reported exactly when the rule flags a row of it, and then with its own outlier rows |
| DataService.DistributionOf | ml-server/data_service.py:163-187 | a numeric column gets a histogram of its values; an object or category column its ten most frequent values with their counts and its number of distinct values |
| DataService.DistributionsOf | ml-server/data_service.py:158-189 | exactly the numeric, object and category columns that have a value |
| DataService.DistributionsOfColumn | ml-server/data_service.py:158-189 | with distinct names, each described column maps to its own distribution |
| DataService.AnalyzeTable | ml-server/data_service.py:113-191 | each section is present exactly when its operation is requested, and is then that section's analysis; the custom section is never filled |
| DataService.NoOperations | ml-server/data_service.py:113 | with no operation the result is the empty one |
| DataService.Analyze | ml-server/data_service.py:104-111 | a missing dataset file raises "Dataset not found", a file without columns raises "No columns to parse from file"; otherwise the table as `read_csv` gives it back from the file is analysed |
| DataService.ReadBackSummary | ml-server/data_service.py:111-124 | the summary of a dataset read back from its file counts no datetime column: every column is numeric or object |
| DataService.DatasetInfo | ml-server/data_service.py:193-201 | a missing metadata file raises "Dataset not found"; otherwise the stored metadata |
| DataService.ValuesOf | ml-server/data_service.py:215-227 | the first distinct values in order, at most `limit` of them, the total count of distinct values, and truncation exactly when some are left out |
| DataService.GetColumnValues | ml-server/data_service.py:203-227 | a missing file, a file without columns or a missing column is an error, in that order; otherwise the distinct values of the first column of that name as `read_csv` gives it back |
| DataService.DeleteDataset | ml-server/data_service.py:229-243 | missing files raise "Dataset not found"; success removes both files; nothing else and no model changes |
| Training.Picked | ml-server/ml_service.py:52 | exactly the names of the definitions accepted, in order |
| Training.NoneKept | ml-server/ml_service.py:53-54 | nothing is picked exactly when no definition is accepted |
| Training.PickedSubsequence | ml-server/ml_service.py:67-71 | a stricter filter picks a subsequence of the names |
| Training.TargetOf | ml-server/ml_service.py:48 | none exactly when no definition is the target; otherwise the name of a target definition |
| Training.SelectColumns | ml-server/ml_service.py:47-71 | no or empty target raises "No target column specified"; no feature raises "No feature columns specified"; otherwise the features, and the numeric and categorical ones among them, in request order |
| Training.SelectionDisjoint | ml-server/ml_service.py:67-71 | with distinct names no feature is both numeric and categorical, and text, datetime and boolean features are in neither list |
| Training.SharedNameInBoth | ml-server/ml_service.py:67-71 | with a repeated name one feature can be in both lists |
| Training.EstimatorOf | ml-server/ml_service.py:92-103 | classification is built with the forest classifier, regression with the forest regressor, the other types with nothing |
| Training.BuildPipeline | ml-server/ml_service.py:73-103 | classification and regression get a random forest with the request's config over the selected columns, unless the estimator's constructor rejects the config, whose exception is then raised; the other types raise "Unsupported model type" |
| Training.Metrics | ml-server/ml_service.py:114-126 | the metrics are exactly the keys measured, with their values; the first failing measurement's exception otherwise |
| Training.MetricNames | ml-server/ml_service.py:118-126 | a classifier reports accuracy, precision, recall and f1; a regressor r2_score, mse and rmse |
| Training.ZipMap | ml-server/ml_service.py:242 | `dict(zip)` pairs positions up to the shorter list |
| Training.ZipImportance | ml-server/ml_service.py:233-247 | as written: the i-th feature in request order gets the i-th importance |
| Training.ImportanceMisaligned | ml-server/ml_service.py:133-135 | a categorical feature before a numeric one gets the numeric one's importance |
| Training.BlockSums | ml-server/ml_service.py:233-247 | the one-hot block sums add up to the importances they sum |
| Training.FeatureImportance | ml-server/ml_service.py:233-247 | corrected: each numeric feature its own column's importance, each categorical feature the sum over its one-hot columns |
| Training.ImportanceConserved | ml-server/ml_service.py:233-247 | corrected importances add up to the estimator's total |
| Training.ImportanceOf | ml-server/ml_service.py:233-247 | importances exist exactly when the estimator has them; they are keyed by feature names only, and the i-th feature in request order gets the i-th importance, up to the shorter list |
| Training.Prepare | ml-server/ml_service.py:39-135 | a missing dataset or one without columns fails at the first checkpoint, the column choice and split at the second, the model type or the estimator's construction at the third, then the fit and evaluation; success carries the built pipeline fitted on the split's training rows and the request's target, the type's metrics and the fitted estimator's importances |
| Training.MetadataOf | ml-server/ml_service.py:145-163 | the stored metadata carries the request's fields, the metrics, the importances, status active, version 1 and the model file's size |
| Training.WriteFile | ml-server/ml_service.py:165-167 | a write completes, leaves the directory unchanged, or leaves an unreadable file |
| Training.Stages | ml-server/ml_service.py:39-167 | success exactly after the last checkpoint, with both files written; failures before the dump leave the models unchanged; only the run's two names change |
| Training.Persist | ml-server/ml_service.py:140-167 | the fitted pipeline is written to the model file, then its metadata; a failed metadata write fails the run but keeps the model file |
| Training.NamesDiffer | ml-server/ml_service.py:141-165 | a model's two files have different names |
| Training.Checkpoint | ml-server/ml_service.py:36-37 | a progress write sets in-progress status and the progress and changes nothing else |
| Training.Passed | ml-server/ml_service.py:37-128 | one in-progress record per checkpoint passed, in schedule order |
| Training.Finish | ml-server/ml_service.py:169-181 | completion sets progress 1.0, the end time, the model id and the metrics; failure the end time and the exception, keeping the last progress |
| Training.Train | ml-server/ml_service.py:32-181 | a run's records start in progress at 0.1, stay in progress, end completed or failed, keep the job's id, tenant and start time, and never touch the datasets |
| Training.TraceAt | ml-server/ml_service.py:32-181 | each record is the checkpoint at its position, then the final record |
| Training.ProgressMonotone | ml-server/ml_service.py:37-169 | progress never goes back during a run |
| Training.TraceMonotone | ml-server/ml_service.py:37-169 | the checkpoint records of any run, then its final record, have non-decreasing progress |
| Training.Outcome | ml-server/ml_service.py:140-181 | a completed run has progress 1.0, its model id, its metrics and both files; a failed run has the exception and the last progress; no other model file changes |
| Training.EarlyFailures | ml-server/ml_service.py:40-103 | a missing dataset or one without columns fails at 0.1, a missing target or feature at 0.2, an unsupported type or a rejected config at 0.3, each without touching the disk |
| Training.MetadataFailureLeavesModel | ml-server/ml_service.py:140-167 | a failed metadata write after the model dump leaves a failed run with its model file on disk |
| MLService.Predict | ml-server/ml_service.py:183-194 | a missing model file raises "Model not found" with its path; a stored fitted pipeline predicts; anything else fails to load |
| MLService.Selected | ml-server/ml_service.py:199-200 | exactly the listed names with the tenant prefix and the metadata suffix, each once when the listing repeats no name |
| MLService.ListModels | ml-server/ml_service.py:196-205 | every metadata file the tenant prefix selects is read exactly once; success exactly when each is model metadata, giving their infos in listing order; otherwise the error of an unreadable one |
| MLService.ReadInfos | ml-server/ml_service.py:201-203 | the files are read in order into infos, or the first one that is not model metadata raises |
| MLService.ListedOwned | ml-server/ml_service.py:196-205 | a tenant lists only files it owns, never those of a separated tenant |
| MLService.ListingCollision | ml-server/ml_service.py:200 | tenant "a" lists the model of tenant "a_b" |
| MLService.GetModelInfo | ml-server/ml_service.py:207-215 | no metadata file gives none; otherwise the stored info |
| MLService.DeleteModel | ml-server/ml_service.py:217-231 | a missing file raises "Model not found"; success removes both files; nothing else changes |
| MLService.DeleteOrphansMetadata | ml-server/ml_service.py:225-231 | a failed second removal leaves a model that is still looked up but can no longer be deleted |
| MLService.CompletedPrepared | ml-server/ml_service.py:140-142 | a completed run stores the fitted pipeline its preparation produced |
| MLService.TrainThenLookup | ml-server/ml_service.py:183-215 | after a completed run the model predicts with the fitted pipeline and is found with the run's metrics |
| MLService.TrainedOnDataset | ml-server/ml_service.py:104-142 | the model file of a completed run holds the request's pipeline fitted, for its target, on the training rows split from the dataset as read back |
| MLService.DatasetReachesModel | ml-server/ml_service.py:109-142 | two completed runs of one request whose training rows differ store different model files |
| MLService.TrainThenDelete | ml-server/ml_service.py:217-231 | deleting a freshly trained model restores the models directory |
| MLService.RemovedAgain | ml-server/ml_service.py:226-227 | removing the two new names restores the earlier directory |
| MLService.SameViewSameAnswers | ml-server/ml_service.py:183-231 | two directories that look the same to a tenant give it the same prediction, lookup and deletion outcome |
| MLService.SameViewSameListing | ml-server/ml_service.py:196-205 | two directories that look the same to a tenant list the same files for it, and the same models when listed in the same order |
| MLService.SameViewSameInfos | ml-server/ml_service.py:201-203 | files a tenant owns read the same from two directories that look the same to it |
| MLService.TrainingInvisible | ml-server/ml_service.py:140-167 | a training run of one tenant leaves what a separated tenant sees, looks up and predicts with unchanged |
| MLService.DeletionInvisible | ml-server/ml_service.py:217-231 | deleting a model of one tenant leaves what a separated tenant sees unchanged |
| MLService.CompletedImportance | ml-server/ml_service.py:130-163 | a completed run's model reports the importances the run read, keyed only by feature names of the request |
| Api.Handled | ml-server/main.py:146-150 | a missing file becomes 404 with a fixed text, any other exception 500 with its message |
| Api.StartTraining | ml-server/main.py:64-104 | another tenant's request is 403 and queues nothing; otherwise a queued record under the new job id and the response announcing it, the other jobs unchanged |
| Api.TrainingStatusOf | ml-server/main.py:106-121 | an unknown job is 404; another tenant's job is 403; otherwise the job's record |
| Api.RunJob | ml-server/main.py:91-96 | the background run leaves the job's final record in the table and no other job changed |
| Api.QueueRunPoll | ml-server/main.py:64-121 | the queuing tenant sees its job queued and then finished; no other caller sees it |
| Api.PredictEndpoint | ml-server/main.py:123-150 | another tenant is 403; otherwise the service's predictions when it succeeds, 404 "Model not found" for a missing model file and 500 "Prediction error" for any other exception |
| Api.UploadEndpoint | ml-server/main.py:152-164 | every upload exception becomes 500 "Dataset upload error" |
| Api.UnsupportedUpload | ml-server/main.py:152-164 | an unsupported file is a 500 that writes nothing |
| Api.AnalyzeEndpoint | ml-server/main.py:166-184 | another tenant is 403; otherwise the service's analysis when it succeeds, 404 "Dataset not found" for a missing file and 500 "Dataset analysis error" for any other exception |
| Api.ListEndpoint | ml-server/main.py:186-196 | the service's listing, or 500 "Error listing models" |
| Api.GetModelAsWritten | ml-server/main.py:198-213 | as written: a missing model becomes 500 "Error getting model" |
| Api.GetModel | ml-server/main.py:198-213 | corrected: a missing model is 404; otherwise the stored info |
| Api.MissingModelIs500 | ml-server/main.py:204-213 | the two differ exactly on a missing model |
| Api.DeleteEndpoint | ml-server/main.py:215-232 | a missing model is 404 with nothing removed; otherwise the service's answer with its message |
| Api.MasterKeyLockedOut | ml-server/main.py:72-73 | the default master key authenticates but can queue, poll, predict and analyse nothing |
| Api.MasterListsNone | ml-server/main.py:186-192 | the master key's listing is that of a tenant named "None" |

## Left out

- Floating point: statistics are over exact reals. pandas rounding, NaN handling and `round(3)` are not modelled.
- Correlation coefficients, skewness, kurtosis and memory usage are supplied by a `Numerics` oracle. Only the shape of the correlation matrix is stated.
- scikit-learn is a `Learner` oracle: splitting, constructing the estimator from the config, fitting, scoring and joblib/JSON writing are given outcomes. The random seed and test fraction are its concern. A fitted pipeline is represented by its configuration, its target and its training rows; the learned trees themselves, and the randomness of a forest without a `random_state`, are the library's.
- `model.predict` is a `Predictor` oracle. Converting request records into a DataFrame is not modelled; the request carries a table.
- Job ids, model ids, dataset ids, timestamps and training durations (`uuid4`, `datetime.now`, `time.time`) are parameters.
- The order of `os.listdir` is a parameter.
- Writing the default key file in `load_api_keys` is not modelled; its contents are.
- A key record without a `key` or `permissions` entry raises `KeyError` in the source. Records here always have both.
- Concurrency: background tasks and the shared `training_jobs` dictionary are modelled as one run applied to the table.
- Boolean and other dtypes are not modelled. The dtype classes are number, object, category and datetime; pandas treats `bool` as numeric in `is_numeric_dtype` but not in `select_dtypes`.
- pandas' renaming of duplicate column names is not modelled. Statements about the values per column assume distinct names.
- DataService.GetColumnValues: when the column is missing pandas raises its own `ValueError` from `usecols`. The model gives the code's "Column not found" message.
- DataService.ColumnStatsOf: the standard deviation (`std`) of a numeric column is not part of the model's statistics, because it needs a floating-point square root. The `top_values` keys and the `top` value are the values themselves, not their `str()` renderings (`str(mode()[0])` for `top`), so two values with the same rendering are not merged and a number is not turned into text such as "1.0".
- DataService.Analyze: `CsvRoundTrip` models only what reading back does to dtypes and missing markers. `read_csv` also re-infers numbers in text columns, and writes datetimes as text; neither is modelled, so a text column of digits stays text and datetime values keep their instants. The same holds for `Training.Prepare` and `DataService.GetColumnValues`.
- DataService.Upload: the two file writes never fail. In the source `to_csv` or `json.dump` can raise after a partial write, leaving an unreadable file or a data file without metadata.
- DataService.GetColumnValues: `unique_values` are returned as the cell values themselves, not as their `str()` renderings, so the model does not say that a numeric value 1 comes back as the text "1.0".
- Training.MetadataOf: one instant `now` stands for the three `datetime.now()` readings of a run (`created_at`, `updated_at` and the job's `end_time`), so the model has them equal, where the source may give them microseconds apart. `Training.Finish` uses the same instant.
- DataService.GetColumnValues: the caller always passes `limit`. The source's default of 100 is not modelled, because no endpoint calls it.
- DataService.Mode: pandas breaks ties between equally frequent values by value order. The model states only that the value is one of the most frequent.
- Training.Prepare: the "Unsupported model type" message renders the enum by its value. Python versions that format a `str` enum by member name would say `ModelType.CLUSTERING`.
- Training.BlockSums: assumes the estimator reports one importance per preprocessed column. Unknown categories at prediction time are ignored by the encoder and not modelled.
- The root endpoint `/` is not modelled, and neither are the CORS and logging set-up.
- `get_dataset_info`, `get_column_values` and `delete_dataset` have no endpoint in main.py. They are modelled as service functions only.

## Findings

| source | as written | input that shows it | evidently intended | confidence | as-written member | corrected member |
|---|---|---|---|---|---|---|
| ml-server/ml_service.py:233-247 | the request-order feature names are zipped with the estimator's importances, which follow the preprocessor's output (numeric first, then one column per category); the modelled run (`Training.ImportanceOf`) stores this pairing | features "c" (categorical, two categories) then "x" (numeric): importances `[0.5, 0.3, 0.2]` give "x" 0.3 and "c" 0.5 | each feature gets the importance of its own output columns, summed over a categorical feature's one-hot columns | medium, not executed | Training.ImportanceMisaligned | Training.ImportanceConserved |
| ml-server/main.py:204-213 | the 404 raised for a missing model is inside the `try`, so `except Exception` turns it into a 500 | `GET /models/x` when `<tenant>_x_metadata.json` does not exist | 404 "Model not found", as `predict` and `delete_model` answer | high, not executed | Api.MissingModelIs500 | Api.GetModel |
