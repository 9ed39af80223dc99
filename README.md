# PTB-XL ECG charts and record manager, modelled in Dafny

This project models two Python classes from `src/tasks/task-6-ptb-eda`.

`ECGImageGenerator` turns a multi-lead ECG record into a strip chart. It places
each lead of the configured lead order on its own baseline, converts millivolts
to millimetres, builds the time axis from the paper speed, and sizes the canvas
at 3 pixels per millimetre. It draws either an annotated chart (5 mm pink grid)
or a clean chart.

`PtbXlEcgManager` manages records of the PTB-XL data set under a downloads
directory. It derives where a record, its chart image and its mask live. It
decides when a record must be downloaded and when image and mask must be
generated. It binarises the clean chart into a mask.

Modules:

- `Wrappers`: `Option` and `Result`.
- `Dicts`: a Python `dict` with insertion order. Re-assigning a key keeps its
  position and replaces its value.
- `Paths`: the POSIX `pathlib` operations the manager uses: parsing, `joinpath`,
  `name`, `parent`, `stem` and `with_suffix`.
- `EcgImageGenerator`: the generator's configuration is a datatype, because it
  is never changed after construction.
  - `GetVerticalOffsets`, `EcgToMillimeters` and `PlotEcg` keep the source's
    loops. Each is proved equal to a specification function: `VerticalOffsets`,
    `Millimeters` or `Plot`.
  - The properties of the chart are lemmas about those functions.
  - The plotting-library figure is a `Figure` datatype holding traces, lead
    labels and a layout (axes, grid, background, pixel size).
  - `PlotEcg` raises as `plot_ecg` does: a `ChartError` for a zero sampling
    frequency, and for a layout under 10 pixels wide or high, which the
    plotting library refuses with a `ValueError`.
- `PtbXlEcgManager`: `EcgManager` is a class.
  - Its configuration lives in `const` fields. The local file system is a
    `var files: map<Path, FileContent>` that downloads and saves update.
  - The record table is given as a map from `ecg_id` to `filename_lr`.
  - Collaborators the code cannot see are parameters:
    - `decode` is the signal decoder, `wfdb.rdsamp`;
    - `rasterise` is the PNG export followed by the greyscale read;
    - `otsu` is the threshold function.
  - Every exception the manager's operations raise is a `Failure` value.

Chart behaviour worth knowing:

- The canvas height comes from the number of leads in the configured order,
  not the number of leads present (`ecg_image_generator.py` lines 39-42).
- Lead labels are added in both the clean and the annotated chart
  (`ecg_image_generator.py` lines 142-151).
- The pixel width and height are 3 times the millimetre sizes, unrounded
  (`ecg_image_generator.py` lines 69-70).
- A chart narrower or lower than 10 pixels is refused: a record without
  samples, one shorter than 10 / 75 s at 25 mm/s, or an empty lead order with
  the default spacing. `ShortRecordIsRefused`, `EmptyRecordIsRefused` and
  `EmptyLeadOrderIsRefused` state these.

Behaviour of the code that the proofs make visible:

- `download_ecg` fetches `f"{filename_lr}.hea"` and `f"{filename_lr}.dat"`,
  while `_is_ecg_downloaded` looks for `with_suffix(".hea")` and
  `with_suffix(".dat")` of the record path. The two agree when the record's
  last segment is a file name without a suffix of its own (`SuffixFree`), and
  PTB-XL's names (such as `records100/00000/00001_lr`) are of that kind.
  - `DownloadedPathsAgree` and `FetchedRecordIsDownloaded` prove that case.
  - `DottedRecordIsNotDownloadedByFetch` proves that for a record whose file
    name has a suffix (such as `r/a.b`), `download_ecg` does not make it count
    as downloaded unless the header looked for was already there.
  - Accordingly, "downloaded afterwards" is proved for suffix-free record
    names, and for records that were already downloaded.
- The mask path applies `with_suffix(".npy")` to `<stem>_mask`. When the stem
  has a suffix of its own, that suffix is replaced together with `_mask`.
  `MaskName` states both cases.
- `_generate_image_and_mask_if_missing` may download the record and then call
  `plot_ecg`, whose `load_ecg` checks again. For a dotted name it downloads
  again. `LoadIsIdempotent` shows the second download writes nothing new.

## Model

| member | source | states |
|---|---|---|
| EcgImageGenerator.NewGenerator | src/tasks/task-6-ptb-eda/ecg_image_generator.py:6-22 | The speed, separation, margin and gain are kept as given. A missing lead order means the twelve standard leads; a given one, even empty, is kept. |
| EcgImageGenerator.DefaultGenerator | src/tasks/task-6-ptb-eda/ecg_image_generator.py:6-22 | The defaults are 25 mm/s and 10 mm/mV with the twelve standard leads. The canvas is then 240 mm high, the first lead sits at 230 mm and the last at 10 mm. |
| EcgImageGenerator.IndexOf | src/tasks/task-6-ptb-eda/ecg_image_generator.py:49 | `leads_order.index(name)` is the position of the first occurrence of the name. |
| EcgImageGenerator.CanvasHeight | src/tasks/task-6-ptb-eda/ecg_image_generator.py:39-42 | The height is the separation times one less than the number of configured leads, plus two margins. |
| EcgImageGenerator.LeadOffset | src/tasks/task-6-ptb-eda/ecg_image_generator.py:50 | The baseline of the lead at position k is the height minus the margin minus k separations. |
| EcgImageGenerator.LeadOffsetAboveMargin | src/tasks/task-6-ptb-eda/ecg_image_generator.py:42-50 | The lead at position k sits as many separations above the bottom margin as there are leads after it. |
| EcgImageGenerator.LeadOffsetsSpanCanvas | src/tasks/task-6-ptb-eda/ecg_image_generator.py:42-50 | The lead at position 0 sits at height minus margin and the last lead at the margin. With a positive separation, the offsets strictly decrease along the order. |
| EcgImageGenerator.VerticalOffsets | src/tasks/task-6-ptb-eda/ecg_image_generator.py:44-52 | The offsets dictionary is well formed: distinct keys, and exactly the keys that hold values. |
| EcgImageGenerator.VerticalOffsetsContents | src/tasks/task-6-ptb-eda/ecg_image_generator.py:44-52 | The offsets keys are exactly the names of `sig_name` that occur in the lead order, so unknown names are skipped and an empty `sig_name` gives an empty map. Each value is `height - margin - index * separation`. |
| EcgImageGenerator.VerticalOffsetsFollowSignalOrder | src/tasks/task-6-ptb-eda/ecg_image_generator.py:45-52 | The offsets dictionary iterates its leads in the order of their first appearance in `sig_name`. |
| EcgImageGenerator.GetVerticalOffsets | src/tasks/task-6-ptb-eda/ecg_image_generator.py:38-54 | The loop builds exactly the offsets dictionary. The height is `separation * (len(leads_order) - 1) + 2 * margin` and depends on the configured order only. |
| EcgImageGenerator.Paired | src/tasks/task-6-ptb-eda/ecg_image_generator.py:29 | `zip` pairs names with signal columns up to the shorter of the two. |
| EcgImageGenerator.LeadTrace | src/tasks/task-6-ptb-eda/ecg_image_generator.py:33 | The trace of a lead has one entry per sample of its column. |
| EcgImageGenerator.LeadTraceAt | src/tasks/task-6-ptb-eda/ecg_image_generator.py:33 | Sample i of a lead's trace is the lead's baseline plus sample i of its column times mm per mV. |
| EcgImageGenerator.MillimetersUpTo | src/tasks/task-6-ptb-eda/ecg_image_generator.py:28-34 | The millimetre dictionary is well formed after every pair. |
| EcgImageGenerator.MillimetersUpToContents | src/tasks/task-6-ptb-eda/ecg_image_generator.py:28-34 | After n pairs, the keys are exactly the first n names that occur in the lead order. A repeated name holds the trace of the last column carrying it. |
| EcgImageGenerator.MillimetersUseOffsets | src/tasks/task-6-ptb-eda/ecg_image_generator.py:29-34 | Every traced lead also has an offset. Each sample of its trace equals that offset plus the column's sample times mm per mV. |
| EcgImageGenerator.EcgToMillimeters | src/tasks/task-6-ptb-eda/ecg_image_generator.py:24-36 | The loop builds exactly the millimetre dictionary and returns the configured canvas height. |
| EcgImageGenerator.TimeVector | src/tasks/task-6-ptb-eda/ecg_image_generator.py:56-65 | There is one x position per sample, and the width is the number of samples times mm per sample. |
| EcgImageGenerator.TimeAxisSpacing | src/tasks/task-6-ptb-eda/ecg_image_generator.py:56-65 | With positive speed and frequency, the time axis has `sig_len` entries and starts at 0. Neighbouring entries are exactly `mmps / fs` apart, and every entry lies in `[0, width)`. |
| EcgImageGenerator.CleanLayout | src/tasks/task-6-ptb-eda/ecg_image_generator.py:67-96 | The pixel size is 3 times the span of each axis range. The y axis ticks linearly and the x axis does not. The y scale is tied to x, tick labels are hidden, and no grid is set. |
| EcgImageGenerator.WithMillimeterGrid | src/tasks/task-6-ptb-eda/ecg_image_generator.py:104-126 | Only the axes change: background, margins and pixel size are kept. Both axes get the 5 mm LightPink grid and tick linearly, the y scale stays tied to x, and tick labels stay hidden. |
| EcgImageGenerator.Traces | src/tasks/task-6-ptb-eda/ecg_image_generator.py:128-140 | There is one trace per millimetre-dictionary key, in the dictionary's order, each over the common x with that key's samples. No name is drawn twice. |
| EcgImageGenerator.LeadLabels | src/tasks/task-6-ptb-eda/ecg_image_generator.py:142-151 | There is one label per offsets key, in the dictionary's order, at x = 5 and 5 mm above that lead's offset. No lead is labelled twice. |
| EcgImageGenerator.Plot | src/tasks/task-6-ptb-eda/ecg_image_generator.py:98-151 | The figure has one trace per traced lead and one label per offset. Each axis carries no grid exactly in the clean mode. |
| EcgImageGenerator.ChartFailure | src/tasks/task-6-ptb-eda/ecg_image_generator.py:56-96 | `plot_ecg` raises ZeroDivisionError exactly for a zero sampling frequency. Otherwise it raises ValueError exactly when the canvas is under 10 pixels wide or high. |
| EcgImageGenerator.CanvasGeometry | src/tasks/task-6-ptb-eda/ecg_image_generator.py:67-96 | The axes span `[0, width]` and `[0, height]` with equal scales, linear y ticks and no tick labels, on white with zero margins. The pixel size is exactly 3 times the millimetre size, unrounded. The layout is accepted exactly when `plot_ecg` does not raise. |
| EcgImageGenerator.PlotEcg | src/tasks/task-6-ptb-eda/ecg_image_generator.py:98-156 | `plot_ecg` raises the chart failure, if any. Otherwise, building the layout, the traces and then adding labels one by one yields exactly the specified figure, in either mode. |
| EcgImageGenerator.RenderModesDifferOnlyInGrid | src/tasks/task-6-ptb-eda/ecg_image_generator.py:103-126 | Clean and annotated figures have identical traces and labels. Their layouts differ only in the 5 mm LightPink grid and the linear x ticks that come with it. |
| EcgImageGenerator.TracesAreLeadsInMillimeters | src/tasks/task-6-ptb-eda/ecg_image_generator.py:128-140 | Each trace is a paired lead of the order. It is drawn over the common time axis with its millimetre samples. No lead is drawn twice and every paired lead of the order is drawn. |
| EcgImageGenerator.LabelsMarkLeadBaselines | src/tasks/task-6-ptb-eda/ecg_image_generator.py:142-151 | There is exactly one label per lead of `sig_name` in the order, at `(5, offset + 5)`, in both modes. |
| EcgImageGenerator.UnknownLeadsAreSkipped | src/tasks/task-6-ptb-eda/ecg_image_generator.py:24-54 | A name outside the lead order gets neither a trace nor a label. |
| EcgImageGenerator.EmptySignalGivesEmptyChart | src/tasks/task-6-ptb-eda/ecg_image_generator.py:98-151 | An empty `sig_name` gives no offsets, no traces and no labels. |
| EcgImageGenerator.DefaultStripDimensions | src/tasks/task-6-ptb-eda/ecg_image_generator.py:56-70 | With the defaults, 1000 samples at 500 Hz give a 50 mm wide strip with 0.05 mm between samples and 150 by 720 pixels, which the plotting library accepts. |
| EcgImageGenerator.ShortRecordIsRefused | src/tasks/task-6-ptb-eda/ecg_image_generator.py:56-96 | With a positive frequency, a record spanning less than 10/3 mm of paper makes `plot_ecg` raise ValueError. |
| EcgImageGenerator.EmptyRecordIsRefused | src/tasks/task-6-ptb-eda/ecg_image_generator.py:56-96 | A record without samples is 0 mm wide and makes `plot_ecg` raise ValueError. |
| EcgImageGenerator.EmptyLeadOrderIsRefused | src/tasks/task-6-ptb-eda/ecg_image_generator.py:19-96 | An empty lead order with 20 mm separation and 10 mm margin gives a 0 mm canvas, and `plot_ecg` raises ValueError. |
| Paths.Parse | src/tasks/task-6-ptb-eda/ptb_xl_ecg_manager.py:126 | `Path(s)` keeps only components that are non-empty, not `.`, and free of separators. |
| Paths.Join | src/tasks/task-6-ptb-eda/ptb_xl_ecg_manager.py:126 | Joining two well-formed paths gives a well-formed path. |
| Paths.Name | src/tasks/task-6-ptb-eda/ptb_xl_ecg_manager.py:129-133 | For a well-formed path, the name is empty exactly when the path has no components, and otherwise is a component. |
| Paths.Parent | src/tasks/task-6-ptb-eda/ptb_xl_ecg_manager.py:133 | The parent keeps the root and keeps paths well formed. |
| Paths.ParentJoinName | src/tasks/task-6-ptb-eda/ptb_xl_ecg_manager.py:133 | A path with components is its parent joined with its name. |
| Paths.Stem | src/tasks/task-6-ptb-eda/ptb_xl_ecg_manager.py:133 | The stem is a prefix of the name. It is shorter exactly when the name has a suffix, and then it stops at the last dot. |
| Paths.WithSuffix | src/tasks/task-6-ptb-eda/ptb_xl_ecg_manager.py:129 | `with_suffix` keeps the parent, replaces the name by stem plus suffix and keeps the path well formed. |
| Paths.AppendIsWithSuffix | src/tasks/task-6-ptb-eda/ptb_xl_ecg_manager.py:103-106 | For a path string whose last name has no suffix, appending a suffix to the string is `with_suffix`. |
| Paths.ParseAppend | src/tasks/task-6-ptb-eda/ptb_xl_ecg_manager.py:103-106 | When a string ends in a component, appending text without a separator to the string extends only the last component of the parsed path, and the root is unchanged. |
| Paths.JoinWithSuffix | src/tasks/task-6-ptb-eda/ptb_xl_ecg_manager.py:125-129 | Joining onto a path with a name keeps that name, and `with_suffix` gives the same result before or after the join. |
| PtbXlEcgManager.Binarise | src/tasks/task-6-ptb-eda/ptb_xl_ecg_manager.py:76 | The mask has the image's shape. A pixel is in the mask iff it is strictly below the threshold. |
| PtbXlEcgManager.MaskPolarity | src/tasks/task-6-ptb-eda/ptb_xl_ecg_manager.py:76 | For a threshold in (0, 255], a black pixel is in the mask and a white pixel is not. |
| PtbXlEcgManager.MaskOfBlackOnWhite | src/tasks/task-6-ptb-eda/ptb_xl_ecg_manager.py:73-76 | On a black-on-white image, the mask is exactly the black pixels. |
| PtbXlEcgManager.LocalPath | src/tasks/task-6-ptb-eda/ptb_xl_ecg_manager.py:125-126 | The downloads directory joined with a bucket path is a well-formed path. |
| PtbXlEcgManager.ImagePath | src/tasks/task-6-ptb-eda/ptb_xl_ecg_manager.py:128-129 | The image lies next to the record and is named stem + `.png`. |
| PtbXlEcgManager.MaskPath | src/tasks/task-6-ptb-eda/ptb_xl_ecg_manager.py:131-133 | The mask lies next to the record, and its path is well formed. |
| PtbXlEcgManager.ImageAndMaskPaths | src/tasks/task-6-ptb-eda/ptb_xl_ecg_manager.py:128-133 | The image and the mask lie in the record's directory. The image is named stem + `.png`, and the image and mask paths always differ. |
| PtbXlEcgManager.MaskName | src/tasks/task-6-ptb-eda/ptb_xl_ecg_manager.py:131-133 | The mask is named stem + `_mask.npy` when the stem has no suffix. Otherwise the stem loses its suffix and `_mask`. |
| PtbXlEcgManager.FetchRecord | src/tasks/task-6-ptb-eda/ptb_xl_ecg_manager.py:103-106 | `download_ecg` keeps every file and adds exactly the files at the record string plus `.hea` and plus `.dat`. |
| PtbXlEcgManager.HasRecordFiles | src/tasks/task-6-ptb-eda/ptb_xl_ecg_manager.py:94-96 | A record is downloaded when both its `.hea` and `.dat` files, by `with_suffix`, exist. |
| PtbXlEcgManager.DownloadedPathsAgree | src/tasks/task-6-ptb-eda/ptb_xl_ecg_manager.py:94-106 | For a suffix-free record name, the file `download_ecg` writes for a suffix is the one `_is_ecg_downloaded` looks for. |
| PtbXlEcgManager.FetchedRecordIsDownloaded | src/tasks/task-6-ptb-eda/ptb_xl_ecg_manager.py:94-106 | After `download_ecg`, a suffix-free record counts as downloaded. |
| PtbXlEcgManager.DottedRecordIsNotDownloadedByFetch | src/tasks/task-6-ptb-eda/ptb_xl_ecg_manager.py:94-106 | For a record whose file name has a suffix of its own, anywhere in the tree, `download_ecg` does not make it count as downloaded unless the header looked for was already there. |
| PtbXlEcgManager.LookedForHeaderIsNotFetched | src/tasks/task-6-ptb-eda/ptb_xl_ecg_manager.py:94-106 | For such a record, the header `_is_ecg_downloaded` looks for is neither file `download_ecg` writes. |
| PtbXlEcgManager.FetchMissing | src/tasks/task-6-ptb-eda/ptb_xl_ecg_manager.py:82-86 | Fetching the missing tables keeps every file that was there unchanged. |
| PtbXlEcgManager.FetchMissingProvidesAll | src/tasks/task-6-ptb-eda/ptb_xl_ecg_manager.py:82-86 | After the check-and-fetch loop, every table is present. |
| PtbXlEcgManager.TablesPresentAfterCreation | src/tasks/task-6-ptb-eda/ptb_xl_ecg_manager.py:18-26 | Without a downloads directory the manager uses `ptb_xl_data`. Both tables are present under it after creation. |
| PtbXlEcgManager.EcgManager.constructor | src/tasks/task-6-ptb-eda/ptb_xl_ecg_manager.py:20-29 | A missing or empty downloads directory means `ptb_xl_data`. The flags and the table are kept, and the missing tables are fetched. |
| PtbXlEcgManager.EcgManager.LoadEcgLabels | src/tasks/task-6-ptb-eda/ptb_xl_ecg_manager.py:82-86 | Each table is fetched exactly when it is not yet on disk. |
| PtbXlEcgManager.EcgManager.DownloadFile | src/tasks/task-6-ptb-eda/gcloud_storage.py:12-20 | The bucket object is written under the downloads directory, at the joined path. |
| PtbXlEcgManager.EcgManager.RecordPath | src/tasks/task-6-ptb-eda/ptb_xl_ecg_manager.py:122-126 | The local record path is the downloads directory joined with `filename_lr`, and is well formed. |
| PtbXlEcgManager.EcgManager.IsEcgDownloaded | src/tasks/task-6-ptb-eda/ptb_xl_ecg_manager.py:94-96 | The check raises KeyError for an unknown id and ValueError for a path without a name. Otherwise it is true iff both `.hea` and `.dat` exist. |
| PtbXlEcgManager.EcgManager.IsEcgImageAndMaskGenerated | src/tasks/task-6-ptb-eda/ptb_xl_ecg_manager.py:98-101 | The check raises as above. Otherwise it is true iff both the image and the mask exist. |
| PtbXlEcgManager.EcgManager.LoadError | src/tasks/task-6-ptb-eda/ptb_xl_ecg_manager.py:31-37 | `load_ecg` raises for an unknown id or a nameless path. It raises the not-downloaded error iff the record is not downloaded and `download_if_missing` is false. |
| PtbXlEcgManager.EcgManager.FilesAfterLoad | src/tasks/task-6-ptb-eda/ptb_xl_ecg_manager.py:34-39 | A load keeps every file and adds at most the record's `.hea` and `.dat` files. |
| PtbXlEcgManager.EcgManager.FilesAfterPlot | src/tasks/task-6-ptb-eda/ptb_xl_ecg_manager.py:63-78 | Without `save` nothing changes. Otherwise at most the image and the mask are added. |
| PtbXlEcgManager.EcgManager.LoadLeavesRecordDownloaded | src/tasks/task-6-ptb-eda/ptb_xl_ecg_manager.py:34-39 | A load that does not raise leaves a downloaded record untouched. Otherwise it leaves the record downloaded afterwards when its name is suffix-free. |
| PtbXlEcgManager.EcgManager.LoadIsIdempotent | src/tasks/task-6-ptb-eda/ptb_xl_ecg_manager.py:113-120 | Loading after a load writes nothing new. |
| PtbXlEcgManager.EcgManager.PlotKeepsFiles | src/tasks/task-6-ptb-eda/ptb_xl_ecg_manager.py:58-80 | Drawing only adds files, so a downloaded record stays downloaded. |
| PtbXlEcgManager.EcgManager.PlotGeneratesImageAndMask | src/tasks/task-6-ptb-eda/ptb_xl_ecg_manager.py:66-78 | Saving with a mask leaves both the image and the mask on disk. The image holds the annotated chart, and the mask holds the clean chart's raster binarised at its Otsu threshold. |
| PtbXlEcgManager.EcgManager.GenerationLeavesImageAndMask | src/tasks/task-6-ptb-eda/ptb_xl_ecg_manager.py:108-120 | When generation proceeds and the chart can be drawn, the image and the mask exist afterwards. The record is downloaded when it was already, or when its name is suffix-free. |
| PtbXlEcgManager.EcgManager.DownloadEcg | src/tasks/task-6-ptb-eda/ptb_xl_ecg_manager.py:103-106 | An unknown id raises KeyError and changes nothing. Otherwise `<filename_lr>.hea` and `<filename_lr>.dat` are fetched. |
| PtbXlEcgManager.EcgManager.LoadEcg | src/tasks/task-6-ptb-eda/ptb_xl_ecg_manager.py:31-45 | A load that raises changes nothing. Otherwise the record is fetched if missing, and the decoded local record is returned. |
| PtbXlEcgManager.EcgManager.PlotEcg | src/tasks/task-6-ptb-eda/ptb_xl_ecg_manager.py:58-80 | The method raises what loading raises. It then raises ZeroDivisionError for a zero frequency and ValueError for a canvas under 10 pixels, keeping what loading fetched. Otherwise it returns the annotated chart. With `save` it writes that chart to the image path; with `save_mask` too, it writes the binarised clean chart to the mask path. |
| PtbXlEcgManager.EcgManager.GenerateImageAndMaskIfMissing | src/tasks/task-6-ptb-eda/ptb_xl_ecg_manager.py:108-120 | If image and mask exist, nothing changes and nothing is raised. Otherwise it raises when generation is off, or when the record is missing and downloading is off. Otherwise it downloads if needed and saves chart and mask with the default generator, or raises what drawing raises. Whenever it returns without raising, the image and the mask exist. |

## Left out

- Plotting and rasterisation (plotly's `go.Figure`, `write_image`, `to_image`) are out: the model builds the `Figure` value handed to the library, and the raster of the clean chart is the `rasterise` parameter.
- `threshold_otsu` is the `otsu` parameter: a floating-point histogram routine in a foreign library.
- `wfdb.rdsamp` is the `decode` parameter: a foreign file-format decoder. Whether the decoded files exist is not checked by the model.
- `pd.read_csv`, `pd.to_datetime` and `ast.literal_eval` in `_load_ecg_labels` are out. The record table is given to the constructor as a map from `ecg_id` to `filename_lr`.
- `get_ecg_image` and `get_ecg_mask` are out: both generate (modelled) and then read the files back with `imageio.imread` and `np.load`, which is file I/O. The `/ 255` normalisation is left out with them.
- Files hold `FileContent` values, not bytes: the PNG encoding, the `.npy` format, and `np.save`'s suffix handling are left out.
- The network client in `gcloud_storage.py` is out: creating it, a missing bucket object (`get_blob` returning `None`), and `mkdir` of the parent directory. Directories are not modelled; only files are.
- Numbers are mathematical reals: IEEE rounding in numpy is not modelled.
- `Paths` follows POSIX `pathlib` for the operations used: "" and "." components are dropped, and ".." is kept. The special leading `//` root is treated like `/`.
- EcgImageGenerator.TimeVector and EcgImageGenerator.Plot require a non-zero sampling frequency, where Python raises ZeroDivisionError. `PlotEcg` in both modules models that error as a `Failure`.
- EcgImageGenerator.CleanLayout and EcgImageGenerator.Plot describe the figure even for a canvas under 10 pixels, which the plotting library refuses. `ChartFailure` says when that happens, and `PlotEcg` in both modules returns a `Failure` before using such a figure.
- Files are identified by the text of their parsed path: `d/r/../x.hea` and `d/x.hea` are different files in the model, though they are the same file on disk when `d/r` is a directory, and symbolic links are not resolved.
- PtbXlEcgManager.ImagePath and PtbXlEcgManager.MaskPath: `with_suffix` raises on a nameless path, so ImagePath requires a name and MaskPath requires a well-formed record path with a name. Every path the manager builds by parsing is well formed, and a nameless path is reported as ValueError by the manager's checks before any image or mask path is formed.
- `plot_ecg`'s `**kwargs` become a `Generator` value built with `NewGenerator`. The generation step passes `DefaultGenerator()`.
