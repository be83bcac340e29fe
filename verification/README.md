# jfsp-dash preprocessing, modelled in Dafny

The JFSP dashboard draws its charts from tables that a set of offline
preprocessing scripts build out of ALFRESCO wildfire-simulation output. Each
source CSV holds, for one region (or fire management option, or forest type)
of one simulation run, a row per year of stochastic replicate values. The
scripts read those files and write:

- `preprocess/area.py`: a tidy table of total area burned, with these rows:
  - per region and run, the replicate mean of each year;
  - a five-model average (`"5modelavg"`) per region, treatment and scenario;
  - an `"AllFMZs"` row per year that sums the fire management zones.
- `preprocess/veg.py`: a tidy table of deciduous and coniferous vegetation
  counts, with these rows:
  - per region and run, the replicate median of each year;
  - coniferous is the sum of the white- and black-spruce medians, or whichever
    of the two files exists, and the run stops when neither exists;
  - a five-model median;
  - statewide sums over the zones.
- `preprocess/cost.py`: a tidy table of fire management costs, with these rows:
  - per fire management option, the mean area burned, priced at the cost per
    acre of a randomly drawn reference year (a missing area stops the script,
    since it cannot be rounded to acres);
  - five-model averages per option;
  - per-model `"total"` rows.
- `preprocess.py`: a pickled nested dictionary of wide frames. There is one
  column per zone, in whole acres, plus a `"statewide"` column of row sums. It
  holds the historical frame and one frame per treatment, scenario and model.
- `preprocessing/preprocess.py`: an earlier draft of the same dictionary. It
  keeps square kilometres and has its own list of fourteen zones.
- `luts.py`: the lookup tables: zones, ecoregions, scenarios, models,
  treatments, fire management options and their costs per acre.

The model keeps the values and the control flow of these scripts. It leaves
out the file system and pandas, using these substitutes:

- A CSV is a map from year to replicate values.
- The disk is a map from path to CSV.
- A pandas missing value (NaN) is `None`.
- pandas' NaN-skipping sum, mean and median are spelled out:
  - a sum of nothing is 0;
  - a mean or median of nothing is missing.
- A reindex that meets a repeated year is an error.

| module | file | what it holds |
|---|---|---|
| `Wrappers` | `wrappers.dfy` | `Option` and `Result` |
| `Measures` | `measures.dfy` | round-half-to-even and the square-kilometre to acre conversion |
| `Luts` | `luts.dfy` | the lookup tables |
| `Settings` | `settings.dfy` | the lookup names the scripts use but `luts.py` does not define, as a parameter record |
| `Paths` | `paths.dfy` | Python's `str.join` and POSIX `os.path.join` |
| `Table` | `table.dfy` | files, errors, row selection, nested-loop key products, and the "append inside the loop" fold |
| `Stats` | `stats.dfy` | sums, means, sorting and medians, with and without missing values |
| `Runs` | `runs.dfy` | the runs the area and vegetation steps read, in their loop orders |
| `Wide` | `wide.dfy` | wide year-indexed frames: column assignment, realignment, row sums, nested dictionaries |
| `Area` | `area.dfy` | `preprocess/area.py` |
| `Veg` | `veg.dfy` | `preprocess/veg.py` |
| `Cost` | `cost.dfy` | `preprocess/cost.py` |
| `Preprocess` | `preprocess.dfy` | `preprocess.py` |
| `Preprocessing` | `preprocessing.dfy` | `preprocessing/preprocess.py` |

Each operation has a partner stated against it:

- a path builder: the file name it ends with, its exact shape, and that
  distinct inputs give distinct files;
- a reading step: an if-and-only-if between success and the files that
  exist, and the error it stops with otherwise;
- an aggregation loop that appends to the table inside the loop: the batch
  computation from the table the loop started with. The two agree because no
  step reads what another step appends.

Three behaviours of the code are easy to misread, and the model keeps them:

- **Missing input files.** Each script treats a missing file its own way:
  - `preprocess/area.py` reads every planned file without checking that it
    exists, so a missing one stops the run;
  - `preprocess/veg.py` stops the run when a planned run has neither spruce
    file. A missing Deciduous file only leaves that run's deciduous counts
    missing, unless no run has one: then the concatenated table has no
    deciduous column, and the first five-model median stops the run;
  - `preprocess/cost.py` skips an option file that is missing.
- **Statewide figures.** The historical sums do not filter on a treatment,
  scenario and model the way the future sums do:
  - `preprocess/area.py` filters the zones on the historical treatment alone.
    Its sums skip missing values, and a year with none of them sums to 0;
  - `preprocess/veg.py` filters on nothing but zone membership and the year.
    Its `t.loc[year]` stops the run on a year without any zone row, and on a
    year with a single one, whose `.sum()` cannot add the labels to the
    counts.
- **Five-model average.** The average skips missing values and is not
  restricted to the models a region has files for.
  In `preprocess/veg.py` a run without a Deciduous file contributes nothing to
  the deciduous median, and in `preprocess/cost.py` a model without an option
  file contributes nothing to that option's mean.

## Model

| member | source | states |
|---|---|---|
| Measures.Round | preprocess.py:28-30 | Python's `round`: the result is within one half of the input, and an exact tie goes to the even integer |
| Measures.RoundNearest | preprocess.py:28-30 | any integer strictly closer than one half to x is x's rounding, so the rounding is unique |
| Measures.RoundOfInteger | preprocess.py:28-30 | rounding an integer gives it back |
| Measures.ToAcres | preprocess.py:28-30 | `to_acres` gives a whole number of acres within half an acre of km² × 247.11 |
| Measures.ToAcresMonotone | preprocess.py:28-30 | more area never converts to fewer acres |
| Measures.ToAcresExamples | preprocess.py:28-30 | 10, 20 and 30 km² convert to 2471, 4942 and 7413 acres |
| Luts.Zones | luts.py:6-19 | twelve fire management zones with distinct codes |
| Luts.Ecoregions | luts.py:21-28 | six ecoregions with distinct codes |
| Luts.Scenarios | luts.py:30 | three scenarios with distinct codes |
| Luts.Models | luts.py:32-38 | five models with distinct codes |
| Luts.VegTypes | luts.py:40 | two vegetation types with distinct codes |
| Luts.TreatmentOptions | luts.py:43-47 | three future treatments with distinct codes |
| Luts.FmoOptions | luts.py:97-102 | four fire management options with distinct codes |
| Luts.OptionCodesAre | luts.py:97-102 | the options are visited in the order C, F, M, L |
| Luts.FmoCosts | luts.py:52-95 | the cost table has a row for exactly the years 2011 to 2017; each row prices exactly the four option codes; every cost per acre is positive |
| Luts.ZonesAndEcoregionsDisjoint | luts.py:6-28 | no zone code is an ecoregion code |
| Luts.LabelsOf | luts.py:6-19 | a dictionary built from entries with distinct codes maps each entry's code to its own name |
| Luts.MergedRegionsKeepAll | luts.py:6-28 | merging the zone and ecoregion dictionaries keeps every entry of both, with its own name |
| Luts.SentinelsAreNotCatalogued | luts.py:6-102 | the labels the aggregation steps add ("5modelavg", "AllFMZs", "statewide", "historical", "total") are not catalogue codes of the kind they stand beside |
| Paths.PathJoinOfNames | preprocess/area.py:15-22 | for a plain directory and separator-free components, `os.path.join` is the components glued with single separators, and the result is again a plain directory |
| Paths.PathJoinEndsWith | preprocess/area.py:15-22 | whatever the directories, `os.path.join` ends the path with its last component |
| Paths.JoinKeepsNoSlash | preprocess/area.py:21 | `"_".join` of separator-free parts is separator-free |
| Paths.LastComponentInjective | preprocess/area.py:15-22 | two joins that differ only in a relative last component are different paths |
| Paths.FragmentName | preprocess/area.py:59 | the prefix-scenario-model fragment is `<prefix>_<scenario>_<model>` and is one path component |
| Paths.CsvName | preprocess/area.py:21 | a total-area-burned file name is `alfresco_totalareaburned_<tag>_<run>_<date>.csv` and is one path component |
| Paths.FileNameSeparates | preprocess/area.py:15-22 | total-area-burned files in one directory that differ in their label have different paths |
| Paths.VegCsvName | preprocess/veg.py:43-46 | a vegetation-count file name is `alfresco_vegcounts_<region>_<forest>_<run>_<date>.csv` and is one path component |
| Paths.VegFileSeparates | preprocess/veg.py:48-50 | vegetation-count files in one directory that differ in their forest type have different paths |
| Table.ReadCsv | preprocess/area.py:50 | reading a CSV succeeds exactly when the path is a file, and otherwise fails naming the path |
| Table.MeanAt | preprocess/area.py:51 | a year's replicate mean is present exactly when the file has the year with at least one replicate |
| Table.MedianAt | preprocess/veg.py:85 | a year's replicate median is present exactly when the file has the year with at least one replicate |
| Table.Select | preprocess/area.py:96-101 | a boolean-mask selection holds the value of every row that passes, and only values of rows that pass |
| Table.SelectConcat | preprocess/area.py:96-101 | selecting from two tables appended is appending the two selections |
| Table.SelectIgnoresRejected | preprocess/area.py:96-101 | appending rows the mask rejects leaves the selection unchanged |
| Table.SelectEmpty | preprocess/area.py:96-101 | a selection is non-empty exactly when some row passes the mask |
| Table.SelectAllKept | preprocess/area.py:96-101 | when every row passes the mask, the selection is the value of every row, in order |
| Table.SelectMany | preprocess/veg.py:220-222 | a selection holds more than one value exactly when two different rows pass the mask |
| Table.KeepsTwoCons | preprocess/veg.py:220-222 | two rows pass the mask exactly when the first row and a later one do, or two later ones do |
| Table.GroupSum | preprocess/cost.py:164-172 | a `groupby` sum is present exactly when its group has a row |
| Table.JoinSums | preprocess/cost.py:164-172 | adding two groups' sums gives a sum exactly when either group has one |
| Table.GroupSumConcat | preprocess/cost.py:164-172 | the `groupby` sum of two tables appended is the two tables' sums added, a table without a row of the group adding nothing |
| Table.GroupSumOfValues | preprocess/cost.py:164-172 | a non-empty group whose values are all present sums to their plain sum |
| Table.GroupSumOfSelected | preprocess/cost.py:164-172 | a `groupby` sum over rows that all belong to the group, each with a present value, is the plain sum of those values |
| Table.Cross3Has | preprocess/cost.py:156-158 | three nested loops visit exactly the triples of one member of each list |
| Table.Cross3Distinct | preprocess/cost.py:156-158 | nested loops over lists without repeats visit no triple twice |
| Table.FlattenHas | preprocess/veg.py:174 | an element of concatenated frames is an element of one of the frames |
| Table.CollectAll | preprocess/cost.py:118-125 | reading one frame per key succeeds exactly when every key's read does, and otherwise stops with some key's error |
| Table.CollectAllMembers | preprocess/cost.py:118-125 | the collected rows are exactly the rows of the keys' frames |
| Table.CollectAllErr | preprocess/cost.py:118-125 | every error collected is one some key's step reports |
| Table.FrameOrFail | preprocess/veg.py:221-223 | a frame of one row per year succeeds exactly when every year's row does; its rows are those rows in year order; otherwise it stops with some year's error |
| Table.AppendLoop | preprocess/cost.py:129-151 | appending inside a loop only extends the starting table |
| Table.AppendLoopIsBatch | preprocess/cost.py:129-151 | with distinct keys, when each key's step reads only rows it owns and no step reads another key's output, the loop gives the starting table plus every key's rows computed from the starting table, and fails with the same error |
| Table.AppendLoopIsBatchInert | preprocess/area.py:123-140 | the same holds even when a key repeats, provided no step reads any step's output |
| Table.AppendLoopOk | preprocess/cost.py:156-175 | a loop whose steps never fail completes |
| Table.AppendLoopErr | preprocess/cost.py:129-151 | every error the loop reports is one some step can report |
| Stats.Mean | preprocess/area.py:51 | a row mean is present exactly when the row is non-empty, and then it times the row length is the row sum |
| Stats.MeanBetween | preprocess/area.py:51 | the mean of values within bounds is within the bounds |
| Stats.MeanOfConstant | preprocess/area.py:51 | replicates that all agree have that value as their mean |
| Stats.Present | preprocess/area.py:103 | skipping missing values keeps every present value and nothing else, and keeps all of them when none is missing |
| Stats.PresentConcat | preprocess/area.py:119 | skipping missing values commutes with appending columns |
| Stats.SumSkipNaConcat | preprocess/area.py:119 | a NaN-skipping row sum over two groups of columns is the sum of the two groups' sums |
| Stats.AddOpt | preprocess/veg.py:97 | the element-wise sum of two medians is present exactly when both are, and is then their sum |
| Stats.Sort | preprocess/veg.py:85 | sorting gives an ascending permutation of the row |
| Stats.SortedUnique | preprocess/veg.py:85 | two ascending rows with the same elements are equal, so the sorted row is unique |
| Stats.Median | preprocess/veg.py:85 | a row median is present exactly when the row is non-empty |
| Stats.MedianSplitsHalves | preprocess/veg.py:85 | at least half of the row is at most the median, and at least half is at least it |
| Stats.MedianBetween | preprocess/veg.py:85 | the median of values within bounds is within the bounds |
| Stats.MedianPermutation | preprocess/veg.py:190-207 | the median does not depend on the order of the values, so a `groupby` median does not depend on row order |
| Runs.KnownSourceIsCatalogued | preprocess/area.py:55-57 | a future run is known exactly when its treatment, scenario and model are catalogue codes |
| Runs.FutureJobsHas | preprocess/area.py:55-57 | the future loops of one region visit exactly that region's runs of the given keys |
| Runs.AreaJobsOfHas | preprocess/area.py:37-83 | for one spatial prefix, the area reading loop visits exactly the known runs of its listed regions |
| Runs.VegJobsOfHas | preprocess/veg.py:142-172 | for one spatial prefix, the vegetation reading loop visits exactly the same runs, in its own order |
| Runs.AreaJobsArePlanned | preprocess/area.py:37-83 | the area step reads a run exactly when the run is planned: a listed region of a spatial prefix, historical or of a catalogued treatment, scenario and model |
| Runs.VegJobsArePlanned | preprocess/veg.py:142-172 | the vegetation step reads exactly the planned runs |
| Wide.Align | preprocess.py:52 | a series assigned to a frame is reindexed on the frame's years: exactly those years, NaN where the series has none |
| Wide.AlignTwice | preprocess.py:52 | reindexing twice on the same years is reindexing once |
| Wide.Assign | preprocess.py:52 | assigning a column adds exactly its name to the columns and holds the series reindexed on the frame's years; a non-empty frame keeps its years, and an empty one takes those of a non-empty series |
| Wide.AssignWellFormed | preprocess.py:52 | assigning a column keeps the names distinct and every column aligned on the index |
| Wide.AssignNames | preprocess.py:79-81 | assigning a new name appends it to the names and the columns |
| Wide.AssignKeeps | preprocess.py:79-81 | assigning one column only realigns the others |
| Wide.BuildWellFormed | preprocess.py:35-52 | assigning columns in turn keeps a frame well formed |
| Wide.BuildIndex | preprocess.py:34-52 | an empty frame takes its index from the first non-empty series assigned to it, and a non-empty one keeps its own index |
| Wide.BuildKeeps | preprocess.py:35-52 | a column that later assignments do not name survives, realigned |
| Wide.BuildColumns | preprocess.py:35-52 | after distinct columns are assigned, each holds its own series aligned on the frame's index |
| Wide.BuildNames | preprocess.py:35-52 | the frame's columns are listed in insertion order |
| Wide.WithTotalCells | preprocess.py:54-56 | adding the row-sum column keeps the index and the other columns, appends the new name, and gives each year the NaN-skipping sum of that year's row before the column was added |
| Wide.RowSums | preprocess.py:54-56 | every year of the frame has a row sum, present even for a row of NaN: the sum of that row's present cells |
| Wide.TotalOfPresent | preprocess.py:54-56 | with every column present in a year, the row sum is the plain sum |
| Wide.TotalOfOwnColumns | preprocess.py:84-86 | the total is the sum of the frame's other columns as they stand after it is added, so it does not count itself |
| Wide.ReadColumns | preprocess.py:35-51 | reading one file per zone succeeds exactly when every zone's file exists; each column is then its zone's series, in zone order; otherwise it stops naming a missing file |
| Wide.BuiltShape | preprocess.py:34-52 | a frame built from distinct columns is well formed, lists them in order, takes the first non-empty series' years, and holds each series aligned |
| Wide.TotalledNames | preprocess.py:54-56 | the totalled frame lists the zone columns then the total, on the years of the first non-empty series |
| Wide.TotalledColumns | preprocess.py:52 | each zone cell of the totalled frame is that zone's series value for the year |
| Wide.TotalledTotal | preprocess.py:54-56 | the total cell is the NaN-skipping sum of the zone cells of its year |
| Wide.ZoneFrameOk | preprocess.py:66-86 | a zone frame is built exactly when every zone's file exists, and otherwise stops naming a missing one |
| Wide.ZoneFrameIndex | preprocess.py:66-86 | a zone frame's years are those of the first zone with any |
| Wide.ZoneFrameShape | preprocess.py:66-86 | a zone frame has the zone columns then the total; each zone cell is its file's series value and each total is the NaN-skipping sum of the zone cells |
| Wide.ModelMapOk | preprocess.py:63-66 | the per-model dictionary is built exactly when every model's frame is; it then holds exactly the earlier keys plus the models, each model under its own frame; otherwise it stops with some model's error |
| Wide.ScenarioMapOk | preprocess.py:61-66 | the same for the per-scenario dictionaries of model dictionaries |
| Wide.TreatmentMapOk | preprocess.py:59-66 | the nested dictionary holds exactly one frame per treatment, scenario and model, and is built exactly when every frame can be |
| Preprocess.AcreSeries | preprocess.py:51-52 | a zone column is indexed by the file's years; a value is present exactly when its year has replicates; it is then a whole number within half an acre of the replicate mean × 247.11 |
| Preprocess.ConstantsAreNames | preprocess.py:16-23 | the fixed names are plain path components |
| Preprocess.HistoricalPath | preprocess.py:36-50 | the historical file of a zone is named `alfresco_totalareaburned_<zone>_<hfmo>_<hdate>.csv`, whatever the directories |
| Preprocess.FuturePath | preprocess.py:68-76 | the file of a zone in a run is named `alfresco_totalareaburned_<zone>_<fmo>_<scenario>_<model>_<date>.csv`, whatever the directories |
| Preprocess.HistoricalPathShape | preprocess.py:36-50 | the historical file of a zone is `data/cru_tx0/<hfmo>/total_area_burned/alfresco_totalareaburned_<zone>_<hfmo>_<hdate>.csv`, with no spatial-prefix level |
| Preprocess.FuturePathShape | preprocess.py:68-76 | the file of a zone in a run is `data/<treatment>/<fragment>/total_area_burned/alfresco_totalareaburned_<zone>_<fragment>_<date>.csv` with fragment `<fmo>_<scenario>_<model>` |
| Preprocess.HistoricalPathsSeparate | preprocess.py:36-50 | different zones read different historical files |
| Preprocess.FuturePathsSeparate | preprocess.py:68-76 | different zones of one run read different files |
| Preprocess.HistoricalFrameOk | preprocess.py:34-52 | the historical frame is built exactly when every zone's historical file exists, and otherwise stops naming a missing one |
| Preprocess.FutureFrameOk | preprocess.py:66-81 | a run's frame is built exactly when every zone's file of that run exists, and otherwise stops naming a missing one |
| Preprocess.RunOverOk | preprocess.py:34-86 | the script completes exactly when every historical file and every run file of every zone exists |
| Preprocess.RunOverFails | preprocess.py:34-86 | a script that stops, stops on a missing historical or run file |
| Preprocess.RunOverShape | preprocess.py:58-86 | a completed dictionary holds the historical frame and is keyed by exactly the treatments, then scenarios, then models, each holding the frame of that run's files |
| Preprocess.RunOk | preprocess.py:34-86 | over the lookup tables, the historical key does not collide with a treatment, and the script completes exactly when every file exists |
| Preprocess.Run | preprocess.py:34-86 | a completed dictionary holds the historical frame of the lookup table's zones, and one entry for each treatment code and no other |
| Preprocess.StatewideIsWhole | preprocess.py:54-56 | a sum of whole zone cells is whole |
| Preprocess.AcreFrameShape | preprocess.py:78-86 | a frame lists the zones then "statewide"; each zone cell is its file's acre value and each statewide cell is the NaN-skipping sum of the zone cells |
| Preprocess.StatewideAcresAreWhole | preprocess.py:84-86 | zone values are rounded before they are summed, so every statewide total is a present, whole number of acres |
| Preprocessing.MeanSeries | preprocessing/preprocess.py:65-68 | a zone column is indexed by the file's years; a value is present exactly when its year has replicates; it is then the replicate mean, with no acre conversion |
| Preprocessing.ZonesAreDistinct | preprocessing/preprocess.py:27-42 | the fourteen zones are listed once each and none is "statewide" |
| Preprocessing.ZonesExtendLookup | preprocessing/preprocess.py:27-42 | the lookup table's twelve zones are this list without its two boreal regions, in the same order |
| Preprocessing.MeanFrameOk | preprocessing/preprocess.py:53-68 | a run's frame is built exactly when every zone's file of that run exists, and otherwise stops naming a missing one |
| Preprocessing.RunOverOk | preprocessing/preprocess.py:46-73 | the script completes exactly when every run file of every zone exists |
| Preprocessing.RunOverFails | preprocessing/preprocess.py:46-73 | a script that stops, stops on a missing run file |
| Preprocessing.RunOverShape | preprocessing/preprocess.py:46-73 | a completed dictionary is keyed by exactly the categories, then scenarios, then models, each holding the frame of that run's files |
| Preprocessing.RunOk | preprocessing/preprocess.py:14-73 | over its own lists, the script completes exactly when every run file of every zone exists |
| Preprocessing.Run | preprocessing/preprocess.py:46-73 | a completed dictionary has an entry for each of its own categories and no other, each holding exactly its scenarios |
| Preprocessing.MeanFrameShape | preprocessing/preprocess.py:53-73 | a frame lists the zones then "statewide"; each zone cell is its file's replicate mean and each statewide cell is the NaN-skipping sum of the zone cells |
| Preprocessing.FirstIndexSameYears | preprocessing/preprocess.py:53-68 | frames built from columns with the same years have the same index |
| Preprocessing.PickledHasDraftYears | preprocessing/preprocess.py:65-68 | where the draft builds a frame for a run, `preprocess.py` builds one for the same run over the same years |
| Preprocessing.AcresOfMeans | preprocessing/preprocess.py:65-68 | a file's acre series is its mean series converted to whole acres, with NaN kept |
| Preprocessing.PickledIsDraftInAcres | preprocessing/preprocess.py:65-68 | each zone cell of the pickled frame is the draft's cell converted to whole acres |
| Area.SourceFilename | preprocess/area.py:13-23 | a source file is named `alfresco_totalareaburned_<region>_<prefix>_<postfix>.csv`, whatever the directories |
| Area.SourceFilenameShape | preprocess/area.py:13-23 | a source path is `<data>/<spatial prefix>/<treatment>/<prefix>/total_area_burned/alfresco_totalareaburned_<region>_<prefix>_<postfix>.csv` |
| Area.HistoricalSourcePath | preprocess/area.py:40-49 | a historical run reads the historical category with the historical prefix and postfix |
| Area.FutureSourcePath | preprocess/area.py:59-77 | a future run reads its treatment and the fragment `<fmo>_<scenario>_<model>`, with the future postfix |
| Area.SourceFilenameSeparatesRegions | preprocess/area.py:13-23 | two regions of the same run never share a source file |
| Area.JobFrame | preprocess/area.py:40-52 | one run's frame is read exactly when its file exists, and otherwise the read fails naming the file; it has one row per year of the run, in order, each carrying the run's region and the replicate mean of its year in that file |
| Area.BaseRowsOk | preprocess/area.py:37-83 | reading succeeds exactly when every planned run's file exists, and otherwise fails on the file of a planned run that does not |
| Area.JobFrameRows | preprocess/area.py:79-83 | each row of a run's frame is a year of the run carrying the run's labels and the replicate mean of that year |
| Area.JobFrameCovers | preprocess/area.py:79-83 | a run whose file exists has a row for every one of its years |
| Area.BaseRowsAreMeans | preprocess/area.py:37-83 | every row read is the replicate mean of its year in its own planned run's file |
| Area.BaseRowsCover | preprocess/area.py:37-83 | every year of every planned run has its row |
| Area.ValueAtRow | preprocess/area.py:96-101 | in a column whose filtered rows repeat no year, each filtered row's area sits at its own year |
| Area.ValueAtMissing | preprocess/area.py:96-101 | a year with no filtered row is NaN in the column |
| Area.FiltersIgnore | preprocess/area.py:96-101 | rows that no column's filter passes change neither whether the columns align nor their values |
| Area.AlignedRows | preprocess/area.py:94-101 | when every column has its row of a year, the frame's row for that year holds exactly those areas |
| Area.AlignedNone | preprocess/area.py:94-103 | when no column has a row of a year, that frame row is all NaN |
| Area.AverageIsModelMean | preprocess/area.py:92-103 | when each model has its row of the year, the five-model average is the mean of their areas |
| Area.AverageOfNoRows | preprocess/area.py:92-103 | when no model has a row of the year, the five-model average is NaN |
| Area.AverageStepLocal | preprocess/area.py:92-104 | an average is unchanged by rows that are not a listed model's row of its region, treatment and scenario |
| Area.AverageStepsAreLocal | preprocess/area.py:88-104 | the averages read only their own key's model rows, and the rows they append are never read, since "5modelavg" is not a listed model |
| Area.ZoneSumRowsAgree | preprocess/area.py:130-139 | a zone sum is unchanged by rows that no zone column's filter passes |
| Area.ZoneSumIgnoresOtherRegions | preprocess/area.py:112-119 | rows of regions that are not zones never change a zone sum |
| Area.StatewideIgnoresEcoregions | preprocess/area.py:112-113 | ecoregion rows never change the "AllFMZs" sums |
| Area.ZoneSumOfRows | preprocess/area.py:112-119 | when each zone has its row of the year, the "AllFMZs" area is the sum of their areas |
| Area.ZoneSumOfNoRows | preprocess/area.py:112-119 | when no zone has a row of the treatment in that year, the "AllFMZs" area is 0 |
| Area.StatewideStepLocal | preprocess/area.py:130-139 | a future sum is unchanged by rows that are not zone rows of its own treatment, scenario and model |
| Area.StatewideStepsAreLocal | preprocess/area.py:123-140 | the future sums read only their own key's zone rows, and the rows they append are never read, since "AllFMZs" is not a zone |
| Area.AveragingIsBatch | preprocess/area.py:88-104 | the averaging loop, which appends inside the loop, gives the averages of all keys computed from the table it starts with |
| Area.SummingIsBatch | preprocess/area.py:123-140 | the future-sum loop gives the sums of all keys computed from the table it starts with |
| Area.AggregateIsBatch | preprocess/area.py:85-140 | averaging then summing gives the reference table, as long as "5modelavg" is not a model and "AllFMZs" is not a zone |
| Area.ProcessIsBatch | preprocess/area.py:26-143 | `process` over the lookup tables equals the reference table |
| Area.Process | preprocess/area.py:26-143 | a failed read stops `process` with its error; a completed table starts with the per-model rows read, which the later steps only extend |
| Area.AggregateFails | preprocess/area.py:85-140 | aggregation fails only on a column that cannot be aligned because its rows repeat a year |
| Area.ProcessFails | preprocess/area.py:26-143 | a run fails only on a missing source file of a planned run, or on a column that cannot be aligned |
| Veg.HistoricalVegPath | preprocess/veg.py:23-40 | a historical vegetation path is `<data>/<sp>/<historical category>/<hfmo>/veg_counts/alfresco_vegcounts_<region>_<forest>_<hfmo>_<hdate>.csv`, whatever the treatment and model |
| Veg.FutureVegPath | preprocess/veg.py:42-51 | a future vegetation path is `<data>/<sp>/<treatment>/<fragment>/veg_counts/alfresco_vegcounts_<region>_<forest>_<fragment>_<date>.csv` with fragment `<fmo>_<scenario>_<model>` |
| Veg.VegFilenameSeparatesForests | preprocess/veg.py:17-51 | the three forest types of one run and region are three different files |
| Veg.VegFilename | preprocess/veg.py:17-51 | a historical vegetation file is named `alfresco_vegcounts_<region>_<forest>_<hfmo>_<hdate>.csv`, whatever the treatment and model; a future one `alfresco_vegcounts_<region>_<forest>_<fmo>_<scenario>_<model>_<date>.csv` |
| Veg.ConiferousAt | preprocess/veg.py:93-120 | with no spruce file the coniferous count is missing; otherwise it is present exactly when every spruce file there is has replicates for the year, and then it is the white-spruce median plus the black-spruce median, counting only the files that exist |
| Veg.TidiedFrame | preprocess/veg.py:65-132 | a run's frame is read exactly when one of its spruce files exists, and otherwise the run stops naming the spatial prefix, labels and region; it has one row per year of the run, in order, with the run's region, the deciduous median and the coniferous count of that year |
| Veg.BaseRowsOk | preprocess/veg.py:142-174 | reading succeeds exactly when every planned run has spruce data, and otherwise stops on a planned run without any |
| Veg.TidiedFrameRows | preprocess/veg.py:69-120 | each row of a run's frame is the tidied row of one of the run's years |
| Veg.TidiedFrameCovers | preprocess/veg.py:69-72 | a run's frame has the tidied row of every one of its years |
| Veg.BaseRowsAreTidied | preprocess/veg.py:142-174 | every row read is the tidied row of its year of a planned run |
| Veg.BaseRowsCover | preprocess/veg.py:142-174 | every year of every planned run has its row |
| Veg.GroupMedianPresent | preprocess/veg.py:190-207 | on a table with the column, a five-model median is present exactly when some row of the group has a value |
| Veg.GroupMedianBetween | preprocess/veg.py:190-207 | a five-model median lies within any bounds of its group's values |
| Veg.GroupMedianIgnoresOthers | preprocess/veg.py:190-207 | rows outside the group never change its median |
| Veg.SumRowOk | preprocess/veg.py:220-223 | a year's sum exists exactly when the table has the deciduous column and two rows are selected; no selected row fails on the year (`.loc` key error), a single one fails on the year (the Series' `.sum()` cannot add labels to counts), and a table without the column fails on the column (key error) |
| Veg.SumRowSplits | preprocess/veg.py:222-223 | splitting the table splits the deciduous and coniferous sums |
| Veg.SumRowIgnoresOthers | preprocess/veg.py:220-223 | rows that are not selected never change a sum |
| Veg.HistoricalStatewideOk | preprocess/veg.py:215-225 | the historical sums exist exactly when the table has the deciduous column and every historical year has two zone rows, and otherwise stop on a historical year with fewer or on the missing column |
| Veg.WithAverageHas | preprocess/veg.py:212-213 | the models with the average added are the models plus the average |
| Veg.WithAverageDistinct | preprocess/veg.py:212-213 | adding the average as a dictionary key lists no model twice |
| Veg.StatewideIgnoresOtherRegions | preprocess/veg.py:215-247 | rows of regions that are not zones never change a statewide sum |
| Veg.StatewideIgnoresEcoregions | preprocess/veg.py:215-247 | ecoregion rows are never counted statewide |
| Veg.StatewideStepLocal | preprocess/veg.py:237-245 | a future statewide sum is unchanged by rows that are not zone rows of its own treatment, scenario and model |
| Veg.StatewideStepsAreLocal | preprocess/veg.py:227-247 | the future sums read only their own run's zone rows and write rows that no sum reads, since the statewide region is not a zone |
| Veg.SummingIsBatch | preprocess/veg.py:227-247 | the future-sum loop gives the sums of all keys computed from the table it starts with |
| Veg.AggregateIsBatch | preprocess/veg.py:176-247 | appending each future sum inside the loop gives the reference table, as long as the statewide region is not a zone |
| Veg.ProcessIsBatch | preprocess/veg.py:135-250 | `process` equals the reference table |
| Veg.Process | preprocess/veg.py:135-250 | a failed read stops `process` with its error; a completed table starts with the tidied rows read, which the later steps only extend |
| Veg.StatewideStepFails | preprocess/veg.py:243-245 | one key's future sums fail only on a future year with no selected row or a single one, or on a missing deciduous column |
| Veg.AggregateFails | preprocess/veg.py:176-247 | aggregation fails only on a historical or future year with no zone row or a single one, or on a table without the deciduous column |
| Veg.ProcessFails | preprocess/veg.py:135-250 | a run fails only on a planned run without spruce data, on a plan without any run, on a year with no zone row or a single one, or, when no planned run has a deciduous file, on the missing deciduous column |
| Veg.ProcessOfNoRuns | preprocess/veg.py:142-174 | with no planned run, `pd.concat` has no frame to concatenate and `process` stops |
| Veg.ProcessNeedsDeciduous | preprocess/veg.py:83-85 | when every planned run has spruce data but none has a deciduous file, the concatenated table has no deciduous column and `process` stops on the first five-model median |
| Veg.MedianKeysOfPlanned | preprocess/veg.py:179-182 | a planned run's region gives the five-model medians a key, so a median is taken |
| Cost.RandomCostMap | preprocess/cost.py:23-26 | the year map covers exactly the years 1950 to 2099, maps each to its own draw in order, and every year it maps is one of 2011 to 2016, which all have a row in the cost table |
| Cost.Successive | preprocess/cost.py:24-25 | the generator's draws map the years from the start onwards, one draw each, in order |
| Cost.HistoricalCostFilename | preprocess/cost.py:33-49 | a historical path is `<data>/FireManagementOptions/<historical category>/<hfmo>/total_area_burned/alfresco_totalareaburned_<option>_<hfmo>_<hdate>.csv`, whatever the treatment and model |
| Cost.FutureCostFilename | preprocess/cost.py:51-66 | a future path is `<data>/FireManagementOptions/<treatment>/<fragment>/total_area_burned/alfresco_totalareaburned_<option>_<fragment>_<date>.csv` |
| Cost.CostFilenameSeparatesOptions | preprocess/cost.py:29-66 | different options never share a file |
| Cost.CostFilename | preprocess/cost.py:29-66 | a historical file is named `alfresco_totalareaburned_<option>_<hfmo>_<hdate>.csv`, whatever the treatment and model; a future one `alfresco_totalareaburned_<option>_<fmo>_<scenario>_<model>_<date>.csv` |
| Cost.CostFactor | preprocess/cost.py:79-80 | with a valid map, the lookup succeeds exactly when the year is mapped and the option is one of C, F, M, L; it fails on an unknown year or option instead of defaulting; every cost per acre is positive |
| Cost.CostFactorFails | preprocess/cost.py:79-80 | with a valid map and a known option, the lookup fails exactly when the year is not mapped |
| Cost.PricingFails | preprocess/cost.py:69-81 | with a map of the drawn shape and a known option, a row that cannot be priced fails on an unmapped year or a missing area |
| Cost.ComputeRowCost | preprocess/cost.py:69-81 | a row cost is computed exactly when the lookup succeeds and the area is present; a failed lookup fails first, with its own error; a missing area then fails, since it cannot be rounded; a computed cost is whole and within half a dollar of whole acres × the cost per acre, and never negative for a non-negative area |
| Cost.Price | preprocess/cost.py:81 | whole dollars within half a dollar of whole acres × the cost per acre |
| Cost.PriceIsPriced | preprocess/cost.py:81 | a priced area satisfies the cost rule |
| Cost.FileRow | preprocess/cost.py:90-97 | a year's row of an option file is built exactly when the lookup succeeds and the file has replicates for the year; it carries the run's labels and the option, the year's replicate mean as its area and that area priced as its cost; otherwise it fails with that year's pricing error |
| Cost.OptionRows | preprocess/cost.py:87-101 | an option whose file is missing gives no rows and no error; one whose file exists gives one row per year, each read from that file and priced, and succeeds exactly when every year has a cost factor and replicates; it fails only with the pricing error of one of its years |
| Cost.GetCostDf | preprocess/cost.py:84-103 | every row read for a run carries the run's treatment, scenario and model |
| Cost.GetCostDfLookups | preprocess/cost.py:84-103 | reading one run succeeds exactly when every year of every existing option file has a cost factor and replicates |
| Cost.GetCostDfError | preprocess/cost.py:84-103 | a run that cannot be read fails with the pricing error of one year of an existing option file |
| Cost.GetCostDfRows | preprocess/cost.py:84-103 | the rows are exactly one per year of each option whose file exists, each the replicate mean of that file's year, priced |
| Cost.GetCostDfOk | preprocess/cost.py:84-103 | with a map of the drawn shape, reading one run succeeds exactly when every year of every existing file is mapped and has replicates |
| Cost.GetCostDfFails | preprocess/cost.py:84-103 | with a map of the drawn shape, a run that cannot be read fails only on an unmapped year or a missing area |
| Cost.AverageRow | preprocess/cost.py:132-150 | a five-model average row is built exactly when its year has a cost factor and some row of the option has an area in that year; it carries its year, treatment, scenario, option and "5modelavg", the NaN-skipping mean of those areas and that mean priced; otherwise it fails with the pricing error of the mean |
| Cost.OptionMeanPresent | preprocess/cost.py:140-148 | the mean area of an option in a year is present exactly when some row of the option has an area in that year |
| Cost.TotalRow | preprocess/cost.py:159-174 | a total row carries its year, treatment, scenario, model and "total"; its area is present exactly when its cost is, exactly when the model has a row in that year |
| Cost.TotalRowSplits | preprocess/cost.py:164-172 | the totals of a table split in two are the totals of the parts added, a part with no row of the model in that year adding nothing |
| Cost.TotalRowIgnoresOthers | preprocess/cost.py:164-172 | rows of other models or years leave a total unchanged |
| Cost.TotalRowSums | preprocess/cost.py:164-174 | when the rows of the model in that year all have an area and a cost, the total row's area and cost are their sums |
| Cost.AverageStepLocal | preprocess/cost.py:140-148 | an average is unchanged by rows of another treatment, scenario or option |
| Cost.AverageStepsAreLocal | preprocess/cost.py:129-151 | each average reads only its own option's rows, and the rows it appends are never read by another key's average |
| Cost.TotalStepLocal | preprocess/cost.py:164-172 | a total is unchanged by rows of another treatment, scenario or model |
| Cost.TotalStepsAreLocal | preprocess/cost.py:156-175 | each total reads only its own model's rows, and the rows it appends are never read by another key's total |
| Cost.AverageKeysDistinct | preprocess/cost.py:129-131 | the averaging loop visits no treatment, scenario and option twice |
| Cost.TotalKeysDistinct | preprocess/cost.py:153-158 | the totalling loop visits no treatment, scenario and model twice, the average included |
| Cost.AveragingIsBatch | preprocess/cost.py:129-151 | the averaging loop, which appends inside the loop, gives the averages of all keys computed from the table it starts with |
| Cost.TotallingIsBatch | preprocess/cost.py:156-175 | the totalling loop gives the totals of all keys computed from the table it starts with |
| Cost.AggregateIsBatch | preprocess/cost.py:127-175 | the two loops give the reference table: averages from the per-model rows, totals from the per-model and average rows |
| Cost.TotalsAreBatch | preprocess/cost.py:153-175 | once the averages are in, the totalling loop gives the reference totals |
| Cost.ProcessIsBatch | preprocess/cost.py:106-178 | `process` equals the reference table |
| Cost.RunIsBatch | preprocess/cost.py:112-175 | once the map is drawn, the run equals the reference table |
| Cost.FutureFrameOk | preprocess/cost.py:118-125 | with a map of the drawn shape, a future run reads exactly when every future year of each existing file of it is mapped and has replicates, and otherwise fails on an unmapped year or a missing area |
| Cost.FutureFramesOk | preprocess/cost.py:118-125 | the future runs of a list all read exactly when each of them is readable |
| Cost.FutureFramesFail | preprocess/cost.py:118-125 | a failing future run fails on an unmapped year or a missing area |
| Cost.AverageStepOk | preprocess/cost.py:132-150 | an option's averages succeed exactly when every future year is mapped and has an area of the option, and otherwise fail on an unmapped year or a missing area |
| Cost.AveragingOk | preprocess/cost.py:129-151 | with distinct keys, the averaging loop completes exactly when every key's averages would, and otherwise fails on an unmapped year or a missing area |
| Cost.AllReady | preprocess/cost.py:129-151 | for a non-empty list of options, all averages succeed exactly when every year is mapped and every option has an area in every year |
| Cost.TotallingOk | preprocess/cost.py:156-175 | the totalling loop never fails |
| Cost.AggregateOk | preprocess/cost.py:127-175 | aggregation completes exactly when every future year is one of 1950 to 2099 and every treatment, scenario and option has an area in every future year, and otherwise fails on an unmapped year or a missing area |
| Cost.HistoricalRowsOk | preprocess/cost.py:113-115 | the historical run reads exactly when every historical year of each existing file is mapped and has replicates, and otherwise fails on an unmapped year or a missing area |
| Cost.BaseRowsOk | preprocess/cost.py:112-125 | the per-model rows read exactly when the historical run and every future run are readable |
| Cost.BaseRowsFail | preprocess/cost.py:112-125 | reading the per-model rows fails only on an unmapped year or a missing area |
| Cost.FutureRowsFail | preprocess/cost.py:118-125 | reading the future rows fails only on an unmapped year or a missing area |
| Cost.HistoricalRowsNotAveraged | preprocess/cost.py:112-145 | no historical row has a future treatment, so the averages never read one |
| Cost.FutureAreaHasFile | preprocess/cost.py:118-148 | a future row with an area for an option comes from an existing file of some model |
| Cost.FileGivesFutureArea | preprocess/cost.py:118-148 | once the future rows are read, an existing file of some model gives the option an area in every future year |
| Cost.AreasOfParts | preprocess/cost.py:140-148 | rows of another treatment in front of a table add no area to an option |
| Cost.BaseAreas | preprocess/cost.py:112-148 | once the per-model rows are read, an option has an area in a future year exactly when some model's file of it exists |
| Cost.AreasWhenCovered | preprocess/cost.py:127-151 | when areas follow files, every option has an area in every year exactly when, given any year at all, every option has some model's file |
| Cost.AggregateOfBase | preprocess/cost.py:112-175 | once the per-model rows are read, aggregation completes exactly when every future year is mapped and every treatment, scenario and option has some model's file |
| Cost.RunSucceeds | preprocess/cost.py:106-178 | with a map of the drawn shape, a run completes exactly when the historical run and every future run are readable, every future year is mapped, and every treatment, scenario and option has some model's file |
| Cost.RunFails | preprocess/cost.py:106-178 | with a map of the drawn shape, a run fails only on an unmapped year or a missing area |
| Cost.ProcessSucceeds | preprocess/cost.py:106-178 | whatever the draws, `process` completes exactly when the historical run and every future run are readable, every future year is one of 1950 to 2099, and every treatment, scenario and option has some model's file |
| Cost.ProcessFails | preprocess/cost.py:106-178 | whatever the draws, `process` fails only on a year the random map does not cover or on a row with no area |
| Cost.Run | preprocess/cost.py:112-175 | once the map is drawn, a failed read stops the run with its error; a completed table starts with the per-model rows read, which the loops only extend |
| Cost.Process | preprocess/cost.py:106-178 | a failed read stops `process` with its error; a completed table starts with the per-model rows read, which the loops only extend |

## Left out

- File input and output are left out: `read_csv`, `to_pickle`, `to_csv`, `pickle.dump`, and the saved year map. Files are a map from path to CSV, `os.path.isfile` is membership, and the written table is the function result.
- `print`, `pprint` and the `pdb` import are left out; they only log.
- Row order and the year index of the tidy tables are left out. A table is a sequence of rows that each carry their year. The statements are about which rows are present and what they hold, not their order in the pickled frame.
- NaN replicate values inside a source CSV are left out: a file maps each year to the replicate values it has, all present, and a year without replicates stands for a row with no values.
- pandas missing values are not modelled as IEEE floats. NaN is `None` and the values are exact reals, so float rounding error is left out.
- numpy's seeded generator is left out. The map is built from a sequence of 150 draws, each in [2011, 2017), which is the generator's range contract; `random_seed` and reproducibility follow because the map is a function of the draws.
- The lookup names the scripts use but `luts.py` does not define are parameters in a `Settings` record rather than constants. These are `spatial_prefix_map`, `historical_year_range`, `future_year_range`, `fmo_prefix`, `historical_fmo_prefix`, `date_postfix`, `historical_date_postfix`, `historical_categories[1]`, `MODEL_AVG` and `STATEWIDE`.
- `luts.to_acres` is also missing from `luts.py`. The cost rule uses the `to_acres` of `preprocess.py:28-30` in its place; this is an assumption.
- The unused `filename` built at `preprocess/area.py:59-68` is left out, except for the fragment it shares with the path.
- `exit()` in `get_tidied_veg_count_df` is modelled as the error `MissingSpruce`, which stops the run.
- `historical_categories` in `preprocessing/preprocess.py` is never used, so it is left out.
- `gui.py` and `application.py` are not part of this model. They are dashboard layout and callbacks, not preprocessing.
- Area.AverageIsModelMean: states the average only when every model has its row of the year, or (Area.AverageOfNoRows) when none does. The case where some models have a row and others do not is left to the definition, which skips the missing ones.
- Area.ZoneSumOfRows: states the sum only when every zone has its row of the year, or (Area.ZoneSumOfNoRows) when none does. Mixed years are left to the definition.
- Cost.TotalRow: states the labels of a total row and when its area and cost are present. The summed values are stated by Cost.TotalRowSums, for rows that are all present, and by Cost.TotalRowSplits, for a table taken in parts.
- Veg.GroupMedianPresent: states the median of a column the table has. A table without the deciduous column stops before any median is taken; Veg.ProcessNeedsDeciduous and Veg.AggregateFails state that failure.
- Veg.GroupMedianBetween: bounds the five-model median rather than stating its value. Its value is the median of the group's present values, whose defining property is Stats.MedianSplitsHalves.
- Stats.Median: states only when a median is present. Its value is characterised by Stats.MedianSplitsHalves and Stats.MedianPermutation.
