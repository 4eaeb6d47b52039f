# Newborn health pipeline: a verified model of its data shaping

The repository is a small batch pipeline for newborn monitoring data. The
pieces modelled here are these:

- `dataset/organize_info.py` lists the input directory, tags every regular
  file by its name ("kaggle csv", "csv", "json", "excel", "parquet",
  "desconhecido"), counts its lines and writes the inventory
  `{"arquivos": [...]}`.
- `dataset/clean_input.py` reads that inventory back. For every entry
  tagged "kaggle csv" it groups the flat CSV rows into one patient per
  `baby_id`: the first row of an id gives the static attributes, and every
  row adds one verbatim daily record. The result goes to
  `output/<name>.json`.
- `ia/train.py` flattens that document into one row per (patient, record).
  It resolves `risk_level` through a fallback chain, drops unlabelled rows
  and label-encodes risk and gender. That yields the feature matrix, the
  targets and the class names of the evaluation report.
- `ia/main.py` flattens the same document the same way, with its own
  number coercion. It encodes gender with a fixed map, asks the trained
  classifier for a code and decodes it with a fixed table.
- `dashboard/script.js` tallies the scored records: counts per risk label
  and per gender, the Male/Female split after `trim`, the per-group risk
  counts over a shared label axis, and the first 20 rows of the table.

The model works on already-parsed data:

- JSON values are a `Json` datatype. Objects are ordered member lists, so
  dictionary insertion order is kept.
- CSV rows are maps from column name to text.
- A directory listing is a sequence of entries that carry their size and
  their already-read contents.
- The trained classifier is a function parameter `predict` from a feature
  vector to an integer code.
- Python's exceptions are a `PyError` datatype carried in a `Result`, so
  every error path the scripts have is modelled as a value.

Where the scripts loop and update state, the model is imperative, and each
method is proved equal to a specification function:

- `CleanInput.ProcessCsv` builds the patient dict.
- `CleanInput.RunBatch` is the `main` loop.
- `OrganizeInfo.GerarInfo` is the `enumerate` loop.
- `Train.FlattenRows` / `Score.FlattenRows` are the nested loops.
- `Train.Preprocess` runs the two fits of one mutable `LabelEncoding.LabelEncoder`.
- `Dashboard.GetRiskCounts`, `Dashboard.GenderCounts` and
  `Dashboard.GenderGroups` are the `forEach` loops.

The properties are then proved as lemmas about those functions.
`FeatureContract` relates the training and scoring scripts to each other.
`Pipeline` relates the inventory writer to the inventory reader.

Behaviour of the code worth knowing:

- A predicted code outside 0..3 decodes to a missing label (`map` yields
  NaN, written as null), not to "Unknown" (`ia/main.py:100`).
- The cleaner writes each kaggle file as soon as it is grouped. A later
  entry that raises leaves the earlier outputs written (`dataset/clean_input.py:91-99`).
- `dropna` removes a row exactly when the resolved `risk_level` is null.
  That happens when the record holds null. It also happens when the record
  lacks the key and the patient holds null (`ia/train.py:58`, `ia/train.py:67`).
- An empty flattened frame has no columns. Training then raises
  `KeyError("risk_level")` at `dropna`, and scoring raises
  `KeyError("gender")` at the gender map.

## Model

| member | source | states |
|---|---|---|
| CleanInput.FirstMissing | dataset/clean_input.py:36-71 | the key of the KeyError is the first referenced column the row lacks, and there is none exactly when the row has every column |
| CleanInput.FieldsVerbatim | dataset/clean_input.py:53-72 | a record holds one field per record column, in column order, each equal to the row's text for that column (no coercion) |
| CleanInput.AddRow | dataset/clean_input.py:35-74 | one loop turn succeeds exactly when the row has `baby_id`, every static column for a new id and every record column; a failure is the KeyError of a column the row lacks |
| CleanInput.AddRowEffect | dataset/clean_input.py:38-74 | an unseen id gets one new entry with the row's statics and one record; a known id keeps its statics and gains the row's record at the end; every other entry is untouched |
| CleanInput.GroupFailureSticks | dataset/clean_input.py:35-36 | once a row raised, the rows after it do not change the outcome |
| CleanInput.ProcessCsv | dataset/clean_input.py:29-76 | the in-place loop over the rows returns exactly `Group(rows)`: the grouped dict, or the first KeyError |
| CleanInput.Group | dataset/clean_input.py:29-76 | the rows are folded one loop turn at a time from an empty dict; the only exception it raises is the KeyError of a column some row lacks |
| CleanInput.PatientJson | dataset/clean_input.py:39-50 | a patient is written with the keys baby_id, name, gender, gestational_age_weeks, birth (weight, length, head circumference) and records, every value the CSV text; `DocumentLookup` proves the read-back |
| CleanInput.Document | dataset/clean_input.py:84 | the dict is written with one member per patient, keyed by its id, in insertion order; `DocumentLookup` proves the read-back |
| CleanInput.GroupedDocument | dataset/clean_input.py:29-84 | grouping a CSV's rows and writing them succeeds exactly when the grouping does, raises the grouping's KeyError otherwise, and writes one member per patient, in first-seen order, each that patient's entry |
| CleanInput.GroupKeys | dataset/clean_input.py:36-50 | the dict has one entry per distinct `baby_id`, keyed by it, its `baby_id` field equal to the key, keys in first-occurrence order |
| CleanInput.GroupRecords | dataset/clean_input.py:52-74 | each patient's records are the records of its own rows, verbatim and in row order |
| CleanInput.GroupStatics | dataset/clean_input.py:38-50 | each patient's name, gender, gestational age and birth measurements are those of the first row with its id |
| CleanInput.GroupTotal | dataset/clean_input.py:52-74 | the number of records over all patients equals the number of rows read |
| CleanInput.GroupSucceedsIff | dataset/clean_input.py:36-71 | grouping succeeds exactly when every row has the columns it is asked for, and otherwise fails with a KeyError |
| CleanInput.DocumentLookup | dataset/clean_input.py:76-84 | reading the written document back by a patient key finds that patient's own entry |
| CleanInput.LoadInfo | dataset/clean_input.py:10-27 | a dict with "arquivos" gives that value (checked first), else one with "files" gives that value, else any dict gives `[data]`; a list is returned as is; anything else raises ValueError |
| CleanInput.SplitExt | dataset/clean_input.py:82 | `os.path.splitext` splits a path into two parts that concatenate back to it |
| CleanInput.SplitExtShape | dataset/clean_input.py:82 | the extension split off is empty or one '.' followed by neither '.' nor '/' |
| CleanInput.SplitExtOfPlainName | dataset/clean_input.py:82 | a plain stem plus one extension splits into exactly that stem and extension |
| CleanInput.Join | dataset/clean_input.py:97 | `os.path.join` puts one '/' between a directory and a relative name, and an absolute name replaces the directory |
| CleanInput.OutputPath | dataset/clean_input.py:82 | the output name always ends in ".json", and is `output/<stem>.json` whenever the stem `os.path.splitext` leaves is not an absolute path |
| CleanInput.OutputPathSwapsExtension | dataset/clean_input.py:82 | a file `stem.ext` is written to `output/stem.json`: only the last extension is replaced |
| CleanInput.OutputPathNoExtension | dataset/clean_input.py:82 | a name without an extension is written to `output/name.json` |
| CleanInput.ProcessEntry | dataset/clean_input.py:91-99 | an entry is skipped exactly when it is a dict with "arquivo" and "tipo" and another tag; a "kaggle csv" entry whose `input/<arquivo>` is missing raises FileNotFoundError, one whose grouping raises raises that KeyError, and otherwise it writes the job read from `input/<arquivo>`, written to that name's output path, holding the grouped document |
| CleanInput.RunEntries | dataset/clean_input.py:91-99 | the loop over the entries, one `ProcessEntry` turn each, keeping the files written when a turn raises; `RunErrorSticks`, `RunSelectsKaggle` and `WriteEntries` state its properties |
| CleanInput.RunAll | dataset/clean_input.py:88-99 | `main`: a failed `load_info` or a non-iterable result raises before any file is written, and otherwise the run is `RunEntries` over the iterated entries; `RunBatch` is proved equal to it |
| CleanInput.RunErrorSticks | dataset/clean_input.py:88-99 | an exception ends the loop: later entries change nothing |
| CleanInput.RunBatch | dataset/clean_input.py:88-99 | the loop over the loaded entries produces exactly `RunAll`: the files written in order, and the exception that stopped it, if any |
| CleanInput.WriteEntries | dataset/clean_input.py:91-99 | the `for entry in files_info` loop writes one file per kaggle entry, in order, and stops at the first entry that raises, exactly as `RunEntries` specifies |
| CleanInput.RunSelectsKaggle | dataset/clean_input.py:96-99 | a run that ends normally writes one file per "kaggle csv" entry, and the i-th file written is the job of the i-th such entry |
| OrganizeInfo.DetectType | dataset/organize_info.py:10-24 | the classifier is total and always returns one of the six tags |
| OrganizeInfo.DetectTypeIgnoresCase | dataset/organize_info.py:12 | names equal up to ASCII letter case get the same tag |
| OrganizeInfo.DetectTypeOfLowered | dataset/organize_info.py:12 | classifying the lower-cased name gives the same tag |
| OrganizeInfo.DetectKaggle | dataset/organize_info.py:13-15 | a lower-cased name ending in ".csv" that contains "kaggle" or "health" is tagged "kaggle csv" |
| OrganizeInfo.KaggleByName | dataset/organize_info.py:13-15 | any name with "kaggle" or "health" in any letter case and a ".csv" extension in any case is tagged "kaggle csv" |
| OrganizeInfo.PlainCsv | dataset/organize_info.py:13-16 | a ".csv" name containing neither word is tagged "csv" |
| OrganizeInfo.JsonByName | dataset/organize_info.py:17-18 | any name ending in ".json" is tagged "json" |
| OrganizeInfo.XlsxByName | dataset/organize_info.py:19-20 | any name ending in ".xlsx" is tagged "excel" |
| OrganizeInfo.XlsByName | dataset/organize_info.py:19-20 | any name ending in ".xls" is tagged "excel" |
| OrganizeInfo.ParquetByName | dataset/organize_info.py:21-22 | any name ending in ".parquet" is tagged "parquet" |
| OrganizeInfo.LineCount | dataset/organize_info.py:30-31 | the number of lines `for _ in f` yields: one per terminator, plus an unterminated last line; `BreaksOfTerminated` and `LinesOfCsv` state its value |
| OrganizeInfo.BreaksOfTerminated | dataset/organize_info.py:30-31 | a text of k lines, each ended by "\n", "\r\n" or "\r", has k line terminators |
| OrganizeInfo.LinesOfCsv | dataset/organize_info.py:29-31 | the count for a CSV of a header and k data lines is k |
| OrganizeInfo.EmptyCsvCount | dataset/organize_info.py:31 | an empty CSV counts -1 lines |
| OrganizeInfo.CountLines | dataset/organize_info.py:26-42 | a tag ending in "csv" gives the line count minus 1; a JSON list gives its length and other JSON 1; a workbook that reads gives min(n, 5) for its n rows, one that does not gives None; "parquet", "desconhecido" and any read that raised give None |
| OrganizeInfo.KbHundredths | dataset/organize_info.py:54 | `round(size / 1024, 2)` in hundredths, ties to even as CPython rounds; `SizeKbClose` bounds its error |
| OrganizeInfo.SizeKb | dataset/organize_info.py:54 | the `tamanho_kb` column in kilobytes; `SizeKbClose` states it is within half a hundredth of the size |
| OrganizeInfo.SizeKbClose | dataset/organize_info.py:54 | the size column is the size in kilobytes to within half a hundredth |
| OrganizeInfo.MakeEntry | dataset/organize_info.py:53-63 | an entry carries its listing index as id, the file name and the file's tag |
| OrganizeInfo.Inventory | dataset/organize_info.py:44-63 | the entries `gerar_info` collects, one per regular file; `InventoryEntriesAreFiles`, `InventoryIdsIncrease` and `InventoryCoversFiles` state its properties |
| OrganizeInfo.EntryJson | dataset/organize_info.py:57-63 | an entry is written with the keys id, arquivo, tipo, tamanho_kb and linhas, a missing count as null; `Pipeline.EntryFields` proves the read-back |
| OrganizeInfo.InfoDocument | dataset/organize_info.py:65 | the document is `{"arquivos": [...]}`; `Pipeline.LoadInventory` proves that `load_info` returns the entries from it |
| OrganizeInfo.GerarInfo | dataset/organize_info.py:44-65 | the `enumerate` loop writes exactly `{"arquivos": Inventory(listing)}` |
| OrganizeInfo.InventoryEntriesAreFiles | dataset/organize_info.py:48-63 | each entry's id is the position of a regular file in the listing, and the entry carries that file's name and the tag its name gives |
| OrganizeInfo.InventoryIdsIncrease | dataset/organize_info.py:48-63 | entry ids strictly increase: entries follow listing order, with gaps where directories were skipped |
| OrganizeInfo.InventoryCoversFiles | dataset/organize_info.py:48-51 | every regular file of the listing has an entry carrying its position as id |
| Pipeline.LoadInventory | dataset/organize_info.py:65 | `load_info` on the written inventory returns exactly its entry list, through the "arquivos" branch |
| Pipeline.EntryProcessing | dataset/clean_input.py:91-99 | the entry's own subscripts `entry["arquivo"]` and `entry["tipo"]` never raise for an inventory entry: it is skipped unless tagged "kaggle csv"; a tagged one raises FileNotFoundError when its file is missing, raises the grouping's KeyError when that fails, and otherwise writes the grouped document of `input/<arquivo>` to that name's output path |
| Pipeline.EntryFields | dataset/clean_input.py:93-94 | an inventory entry is a dict whose "arquivo" and "tipo" hold the file name and tag as strings |
| Pipeline.EntryWritten | dataset/clean_input.py:96-99 | a tagged entry whose file exists writes the grouped document of `input/<arquivo>` to that name's output path, or raises the grouping's KeyError |
| Pipeline.KaggleEntriesCount | dataset/organize_info.py:53-63 | the inventory holds one "kaggle csv" entry per regular file so tagged |
| Pipeline.InventoryRun | dataset/clean_input.py:88-99 | a cleaner run on the inventory of a listing that ends normally writes one file per regular file tagged "kaggle csv" |
| Pipeline.DatasetTagged | dataset/organize_info.py:13-15 | "newborn_health_monitoring_with_risk.csv" is tagged "kaggle csv" |
| Pipeline.DatasetConverted | dataset/clean_input.py:82 | that file is written to "output/newborn_health_monitoring_with_risk.json", the document both model scripts load |
| Numbers.Parse | ia/train.py:20 | the accepted decimal literals; a string of digits reads as its value |
| Numbers.PyFloat | ia/train.py:35-38 | `float` raises ValueError exactly for a string that does not parse, and TypeError for null, a list or a dict; a number is itself and a boolean is 1.0 or 0.0 |
| Numbers.SafeFloat | ia/train.py:18-22 | `safe_float` is the value `float` gives, and 0.0 wherever `float` raises |
| Numbers.SafeFloatDefaults | ia/main.py:7-11 | null, a non-numeric string, a list and a dict read as 0.0; a numeric string reads as its value; a number is itself |
| Values.Get | ia/train.py:33-34 | `d.get(key, default)` is the stored value when the key is present and the default otherwise |
| Values.DictGet | ia/train.py:41 | `.get` on a non-dict raises AttributeError |
| Values.Subscript | ia/main.py:38-40 | `v[key]` raises KeyError for a dict without the key and TypeError for a non-dict |
| Values.Iterate | ia/train.py:41 | a `for` loop visits a list's items, a dict's keys in order or a string's characters in order, and raises TypeError on null, a boolean or a number |
| Readings.Vitals | ia/train.py:44-57 | the thirteen readings are `safe_float(rec.get(column))`, in column order |
| Readings.VitalsDefault | ia/main.py:47-59 | a reading the record lacks or holds as non-numeric text reads as 0.0 |
| Train.BirthFloats | ia/train.py:36-38 | the row succeeds exactly when every `float(birth.get(key, 0))` does, giving those values in key order; otherwise it raises the error of the first key whose conversion raises |
| Train.TrainBasic | ia/train.py:31-39 | a non-dict patient or a non-dict "birth" raises AttributeError, a missing "birth" raises KeyError("birth"), and a gestational age or birth value `float` rejects raises that error; on success the statics are the gestational age then the three birth values through `float(... .get(key, 0))`, a missing gestational age reading as 0.0 |
| Train.Risk | ia/train.py:58 | the risk is the record's value if present, else the patient's if present, else "Unknown" |
| Train.RecordRow | ia/train.py:41-59 | a record yields a row exactly when it is a dict; otherwise AttributeError |
| Train.AppendRecordRows | ia/train.py:41-60 | the inner loop appends the rows of all records in order, or stops at the first record that raises |
| Train.Flatten | ia/train.py:30-60 | the rows of every patient in order, or the first exception; `FlattenShape`, `PatientRowsShape` and `FlattenRowsFromPatients` state its properties |
| Train.FlattenRows | ia/train.py:30-60 | the nested loop returns exactly `Flatten(data)`, patients then records in order, or the first exception |
| Train.PatientRowsShape | ia/train.py:41-60 | a patient contributes one row per record, in record order, each with the patient's basic info and key, the record's date and readings, and the resolved risk |
| Train.FlattenShape | ia/train.py:30-60 | the number of rows is the sum of the patients' record counts |
| Train.FlattenRowsFromPatients | ia/train.py:30-43 | every row carries the basic info of one of the patients, under that patient's key |
| Train.Labelled | ia/train.py:67 | `dropna` keeps exactly the rows whose risk is not null, and the kept rows plus the null-risk rows are all the rows |
| Train.LabelledFilters | ia/train.py:67 | `dropna` is the order-keeping filter on a non-null risk |
| Train.LabelledOcc | ia/train.py:67 | a row with a non-null risk survives as many times as it occurs, one with a null risk never |
| Train.LabelledAppend | ia/train.py:67 | dropping the unlabelled rows of two frames one after the other gives the kept rows of each, in order |
| Train.LabelledKeepsAll | ia/train.py:67 | rows whose risks are all non-null all survive, in order |
| Train.PrepareAsWritten | ia/train.py:63-107 | lines 63-107 as written: an empty frame raises KeyError("risk_level"), a non-string label TypeError, and otherwise the features, the risk codes and the gender classes as report names; `TargetNamesAreGenders` states the last |
| Train.Preprocess | ia/train.py:63-70 | one encoder fitted on the risks and then refitted on the genders gives exactly `PrepareAsWritten(rows)` |
| Train.TargetNamesAreGenders | ia/train.py:107 | as written, the report's class names are the gender classes, while the targets are the risk codes |
| Train.PrepareDecodes | ia/train.py:67-70 | with the risk classes as class names, every target code names its own row's risk label, and no kept row is unlabelled |
| Train.FeatureVectorShape | ia/train.py:72-93 | a feature vector has one value per each of the 18 names, with the 13 readings in the middle and the gender code last |
| LabelEncoding.ClassesOf | ia/train.py:69 | a fit fails with TypeError exactly when a value is not a string or null; the classes are the distinct values, strings ascending and null last |
| LabelEncoding.ClassesNoDup | ia/train.py:107 | the fitted classes have no duplicates |
| LabelEncoding.ClassesDependOnValuesOnly | ia/train.py:69 | the classes depend only on which values occur, not on their order or count |
| LabelEncoding.Codes | ia/train.py:69 | each value's code is the index of its class |
| LabelEncoding.CodesFaithful | ia/train.py:69 | two values get the same code exactly when they are equal |
| LabelEncoding.CodesFollowOrder | ia/train.py:69 | codes follow the code-point order of the strings they stand for |
| LabelEncoding.LabelEncoder.constructor | ia/train.py:68 | a new encoder has no classes |
| LabelEncoding.LabelEncoder.FitTransform | ia/train.py:69-70 | a fit replaces the classes by those of the new values and returns their codes; a failed fit raises TypeError and leaves the classes as they were |
| Score.BirthReading | ia/main.py:38-40 | `paciente["birth"][key]` raises unless the patient is a dict with a dict "birth" holding the key; the value then goes through `safe_float` |
| Score.BirthStatics | ia/main.py:38-40 | the three birth readings of a dict patient succeed exactly when "birth" is a dict holding all three keys, and are then their `safe_float` values in key order; a missing "birth" raises KeyError("birth"), a non-dict one TypeError, and otherwise the first missing key raises its KeyError |
| Score.ScoreBasic | ia/main.py:33-41 | the basic info is built exactly when the patient is a dict whose "birth" is a dict holding all three birth keys; a non-dict patient raises AttributeError, a missing "birth" KeyError, a non-dict "birth" TypeError, and otherwise the first missing birth key's KeyError; the statics are the gestational age and the three birth values through `safe_float` |
| Score.RecordRow | ia/main.py:43-60 | a record yields a row exactly when it is a dict; otherwise AttributeError |
| Score.AppendRecordRows | ia/main.py:43-61 | the inner loop appends the rows of all records in order, or stops at the first record that raises |
| Score.Flatten | ia/main.py:32-61 | the rows of every patient in order, or the first exception; `PatientRowsShape` and `FeatureContract.FlattenAgree` state its properties |
| Score.FlattenRows | ia/main.py:32-61 | the nested loop returns exactly `Flatten(data)` |
| Score.PatientRowsShape | ia/main.py:43-61 | one row per record, in order, with the patient's key and the record's date passed through unchanged |
| Score.GenderEncoded | ia/main.py:67 | the gender code is 1 exactly for "Male" and 0 for anything else, a missing gender included |
| Score.LabelMap | ia/main.py:99-100 | code 0 decodes to "Low", 1 to "Medium", 2 to "High", 3 to "Unknown"; any other code gives a missing label |
| Score.ScoreAll | ia/main.py:63-100 | an empty frame raises KeyError("gender"); otherwise there is one output row per input row |
| Score.ScoreAsWritten | ia/main.py:63-100 | the script with the fixed gender map and the fixed decode table; `ScoreAll` and `ScoredRows` state its properties |
| Score.ScoredRows | ia/main.py:67-100 | each output row keeps its input row, in order, with its gender code and the decoded prediction on its own features |
| FeatureContract.FeatureListsAgree | ia/main.py:69-89 | the scoring feature list equals the training list: 18 distinct names ending with "gender_encoded" |
| FeatureContract.BasicAgree | ia/main.py:33-41 | where both scripts read a patient without raising, they build the same basic info |
| FeatureContract.PatientAgree | ia/main.py:43-61 | where both succeed on a patient, they give the same number of rows, pairwise equal in basic info, date and readings |
| FeatureContract.StaticsStricterInTraining | ia/train.py:35-38 | a gestational age `float` rejects makes training raise that error for the patient, while scoring reads it as 0.0 and succeeds |
| FeatureContract.FlattenAgree | ia/main.py:32-61 | where both flatten the same document without raising, they give the same number of rows, pairwise agreeing |
| FeatureContract.FeatureVectorsAgree | ia/main.py:91 | agreeing rows give the same feature vector for the same gender code |
| FeatureContract.GenderCodesAgree | ia/main.py:66-67 | when every gender is "Male" or "Female" and "Female" occurs, training's encoder codes equal the scoring map |
| FeatureContract.AllMaleDisagrees | ia/main.py:67 | an all-"Male" training set encodes "Male" as 0, while scoring encodes it as 1 |
| FeatureContract.GenderCodeWith | ia/main.py:67 | the corrected gender code is the gender's index among the training classes, and 0 for an unseen gender |
| FeatureContract.GenderCodeWithReproducesTraining | ia/train.py:70 | scoring with the training gender classes reproduces the gender column training put in each feature vector |
| FeatureContract.StandardClasses | ia/train.py:69 | risks drawn from "Low", "Medium", "High" (and "Unknown"), all present, are encoded with classes High, Low, Medium (, Unknown) |
| FeatureContract.LabelMapMisreads | ia/main.py:97-99 | with those classes, the fixed table decodes High's code as "Low", Low's as "Medium" and Medium's as "High" |
| FeatureContract.DecodeWith | ia/main.py:99-100 | the corrected decode gives the class at the code, and a missing label for a code outside the classes |
| FeatureContract.DecodeRoundTrip | ia/main.py:99-100 | decoding with the training classes gives back every encoded value |
| FeatureContract.ScoreCorrectedDecodes | ia/main.py:95-100 | with the corrected encoders, a prediction of the code training gave a label is decoded as that label |
| Dashboard.OrDefault | dashboard/script.js:10 | `x || fallback` is the string when it is present and non-empty, and the fallback otherwise |
| Dashboard.RiskKeys | dashboard/script.js:9-10 | each record is keyed by its risk label, or "Desconhecido" |
| Dashboard.GenderKeys | dashboard/script.js:28-29 | each record is keyed by its gender, or "Indefinido" |
| Dashboard.ObjectValues | dashboard/script.js:19 | `Object.values` has one count per key, in key order, each the count stored under that key |
| Dashboard.Bump | dashboard/script.js:11 | `counts[k] = (counts[k] \|\| 0) + 1`: a new key starts at 1 after the others, a known key goes up by one; `TallyOfCounts` states the result |
| Dashboard.TallyOf | dashboard/script.js:8-12 | the counter after the `forEach`; `TallyOfCounts` and `TallyOfSum` state its keys and counts |
| Dashboard.TallyOfCounts | dashboard/script.js:8-12 | the counter's keys are the distinct labels in first-seen order, and each count is the label's number of occurrences |
| Dashboard.TallyOfSum | dashboard/script.js:8-12 | the counts add up to the number of labels counted |
| Dashboard.GetRiskCounts | dashboard/script.js:85-92 | the counting loop yields exactly the tally of the records' risk keys |
| Dashboard.GenderCounts | dashboard/script.js:27-31 | the counting loop yields exactly the tally of the records' gender keys |
| Dashboard.RiskCountsCover | dashboard/script.js:8-12 | the risk counts sum to the number of records, and a record without a label is counted under "Desconhecido" |
| Dashboard.GenderCountsCover | dashboard/script.js:27-31 | the gender counts sum to the number of records |
| Dashboard.Trim | dashboard/script.js:78 | a trimmed string neither starts nor ends with white space |
| Dashboard.TrimInfix | dashboard/script.js:78 | `trim` removes only white space at the ends and is idempotent |
| Dashboard.GroupOf | dashboard/script.js:74-82 | a group holds exactly the records whose trimmed gender (default "Desconhecido") is its name |
| Dashboard.GroupOfFilters | dashboard/script.js:77-82 | a group is the order-keeping filter of the records on their trimmed gender |
| Dashboard.GroupOfOcc | dashboard/script.js:77-82 | a record is in its gender's group as many times as it occurs in the data, and in no other group |
| Dashboard.GroupOfAppend | dashboard/script.js:77-82 | grouping two batches one after the other gives each batch's group, in order |
| Dashboard.Ungrouped | dashboard/script.js:77-82 | the dropped records are exactly those whose trimmed gender is neither "Male" nor "Female" |
| Dashboard.GenderGroups | dashboard/script.js:74-82 | the grouping loop yields the Male and Female groups in input order |
| Dashboard.GroupsPartition | dashboard/script.js:77-82 | every record lands in exactly one of the Male group, the Female group or the dropped ones |
| Dashboard.RiskLabels | dashboard/script.js:97-100 | the axis is the de-duplicated male keys followed by the female keys; `RiskLabelsAxis` states its contents and order |
| Dashboard.RiskLabelsAxis | dashboard/script.js:97-100 | the axis holds every risk label of either group once, male labels first, in first-occurrence order |
| Dashboard.ChartData | dashboard/script.js:123 | a chart's data array has one entry per axis label |
| Dashboard.ChartDataCounts | dashboard/script.js:123 | each entry is the number of the group's records with that label, 0 for a label only the other group has |
| Dashboard.ChartDataSum | dashboard/script.js:148 | each group's chart data sums to the size of its group |
| Dashboard.TableRows | dashboard/script.js:169 | the table shows the first min(20, n) records, in order |
| Dashboard.RiskColour | dashboard/script.js:176 | the risk cell is red exactly for "High", yellow exactly for "Medium", and green otherwise |

## Left out

- File and serialisation I/O (`open`, `json.load`/`dump`, `csv.DictReader`, `os.listdir`, `os.path.getsize`, `pd.read_excel`, `joblib`, `fetch`) and all logging: rows, JSON values, listings and file contents arrive already read.
- Numbers.Parse: accepts optionally signed decimal literals only; exponents, surrounding white space, "inf"/"nan" and underscores are not modelled.
- The floating-point value of `tamanho_kb`: the rounding is modelled on exact rationals in hundredths, not on binary doubles.
- The line count of text decoded with `errors="ignore"`: the text arrives already decoded.
- Strings.Lower: lowers ASCII letters only; Unicode case mapping is not modelled.
- The scikit-learn work (`train_test_split`, the random forest's fit and predict, `classification_report`): foreign numeric code. `predict` is a parameter.
- LabelEncoding.ClassesOf: a numeric or boolean label is modelled as a TypeError; scikit-learn would sort numbers numerically.
- The temperature averages, `parseFloat` and `toFixed` in the dashboard: floating point.
- Chart.js, the DOM, and `dashboard/run_server.py`, which only serves files.
- Non-string genders and risk labels in the scored records: the dashboard model reads both fields as strings or absent.
- Dashboard.TallyOfCounts: JavaScript lists integer-like object keys before the others; the model keeps keys in insertion order. `counts[k] || 0` (`dashboard/script.js:11`, `30`, `89`) also reads inherited properties: a label "constructor" or "toString" starts from a function and its count becomes text, and a label `"__proto__"` adds no key at all. The model counts every label as an own key from 0.
- Dashboard.GroupOf: a trimmed gender naming an inherited property ("constructor", "toString", `"__proto__"`) passes `if (genderGroups[gender])` (`dashboard/script.js:79`). Its `.push` then throws, the `catch` at line 184 swallows the error, and the later charts and the table are not drawn. The model drops such a record like any other gender.
- Python floats are modelled as exact reals: Numbers.Parse and Numbers.PyFloat give the exact decimal value, and every feature value is exact. Rounding to binary doubles is not modelled.
- CleanInput.Group: `csv.DictReader` gives None for the missing cells of a short line, and puts the extra cells of a long line in a list under the key None; the script writes such a None as null. The model's rows map every present column to text, so those lines are not modelled.
- JSON objects with repeated keys: `json.load` keeps the last value of a repeated key, while `Values.Lookup` takes the first. The model assumes distinct keys in every object it reads, as `json.dump` writes them.
- The inventory path mismatch: `organize_info.py` writes `dataset/info.json`, while `clean_input.py` reads `info.json` relative to its working directory. The model treats both as the same document.

## Findings

| source | as written | input that shows it | evidently intended | confidence | as-written member | corrected member |
|---|---|---|---|---|---|---|
| ia/train.py:70 | the shared `label_encoder` is refitted on gender, so the `classes_` passed as `target_names` at line 107 are the gender classes | any labelled set, e.g. risks "High"/"Low" and genders "Female"/"Male": the report names the risk codes "Female", "Male"; when the test split and its predictions hold three risk codes while there are two genders, `classification_report` raises ValueError, so the model is never saved at line 111 | the report's class names are the risk classes | not executed | Train.TargetNamesAreGenders | Train.PrepareDecodes |
| ia/main.py:99 | the decode table assumes 0 = "Low", 1 = "Medium", 2 = "High" | training risks "Low", "Medium", "High": the encoder numbers them High = 0, Low = 1, Medium = 2, so a predicted High decodes as "Low" | decode with the training encoder's classes | not executed | FeatureContract.LabelMapMisreads | FeatureContract.DecodeRoundTrip |
| ia/main.py:67 | the fixed map Male = 1, Female = 0 is said to be the same as training's encoder | training genders all "Male": the encoder gives "Male" code 0, while scoring gives 1 | encode with the training encoder's gender classes | not executed | FeatureContract.AllMaleDisagrees | FeatureContract.GenderCodeWithReproducesTraining |
