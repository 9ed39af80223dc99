/**
 * The record manager `PtbXlEcgManager`: where a record, its chart image and its
 * mask live on disk, when a record is downloaded, and when its image and mask
 * are generated. The local file system is a map from paths to what was written
 * there; the storage bucket, the signal decoder, the rasteriser and the Otsu
 * threshold are parameters.
 */
module PtbXlEcgManager {
  import opened Wrappers
  import opened Paths
  import opened EcgImageGenerator

  /** The storage bucket the records are fetched from. */
  const BucketName: string := "ptb-xl-1.0.1.physionet.org"

  /** The downloads directory used when none (or an empty one) is given. */
  const DefaultDownloadsDirectory: string := "ptb_xl_data"

  /** The two tables the manager fetches when it is created. */
  const LabelTables: seq<string> := ["ptbxl_database.csv", "scp_statements.csv"]

  /**
   * The exceptions the manager's operations raise: a record id missing from the
   * table, a `ValueError` (from `with_suffix` on a path without a name, or from
   * the plotting library on a canvas it refuses), the two `RuntimeError`s, and
   * a division by a zero sampling frequency inside the chart code.
   */
  datatype Error = KeyError | ValueError | NotDownloaded | ImagesNotGenerated | ZeroDivisionError

  /** The Python exception behind each way the chart code fails. */
  function ChartException(e: ChartError): Error {
    match e
    case ZeroFrequency => ZeroDivisionError
    case CanvasTooSmall => ValueError
  }

  /** What a file holds: an object copied from the bucket, a chart image, or a saved mask. */
  datatype FileContent =
    | BucketObject(name: string)
    | Png(figure: Figure)
    | MaskArray(mask: seq<seq<bool>>)

  type Files = map<Path, FileContent>

  // ---------------------------------------------------------------- mask

  /** `image < threshold`: a mask of the image's shape, true exactly where the pixel is darker than the threshold. */
  function Binarise(image: seq<seq<real>>, threshold: real): (mask: seq<seq<bool>>)
    ensures |mask| == |image|
    ensures forall r | 0 <= r < |image| :: |mask[r]| == |image[r]|
    ensures forall r, c | 0 <= r < |image| && 0 <= c < |image[r]| :: mask[r][c] <==> image[r][c] < threshold
  {
    seq(|image|, r requires 0 <= r < |image| =>
      seq(|image[r]|, c requires 0 <= c < |image[r]| => image[r][c] < threshold))
  }

  /** With a threshold in (0, 255], black pixels are in the mask and white pixels are not. */
  lemma {:induction false} MaskPolarity(image: seq<seq<real>>, threshold: real, r: nat, c: nat)
    requires 0.0 < threshold <= 255.0 && r < |image| && c < |image[r]|
    ensures image[r][c] == 0.0 ==> Binarise(image, threshold)[r][c]
    ensures image[r][c] == 255.0 ==> !Binarise(image, threshold)[r][c]
  {
  }

  /** On a black-on-white image, the mask is exactly the set of black pixels. */
  lemma {:induction false} MaskOfBlackOnWhite(image: seq<seq<real>>, threshold: real)
    requires 0.0 < threshold <= 255.0
    requires forall r, c | 0 <= r < |image| && 0 <= c < |image[r]| :: image[r][c] == 0.0 || image[r][c] == 255.0
    ensures forall r, c | 0 <= r < |image| && 0 <= c < |image[r]| ::
      Binarise(image, threshold)[r][c] <==> image[r][c] == 0.0
  {
  }

  // ---------------------------------------------------------------- paths

  /** `Path(directory).joinpath(relative)`: a file of the bucket, or a record, under the downloads directory. */
  function LocalPath(directory: string, relative: string): (p: Path)
    ensures WellFormed(p)
  {
    Join(Parse(directory), Parse(relative))
  }

  /** The chart image of a record: the record path with suffix `.png`. */
  function ImagePath(record: Path): (p: Path)
    requires Name(record) != ""
    ensures Parent(p) == Parent(record) && Name(p) == Stem(Name(record)) + ".png"
  {
    WithSuffix(record, ".png")
  }

  /**
   * The mask of a record: `<stem>_mask` next to the record, then with suffix
   * `.npy`. Every path built by parsing is well formed, which makes the stem a
   * single component.
   */
  function MaskPath(record: Path): (p: Path)
    requires WellFormed(record) && Name(record) != ""
    ensures Parent(p) == Parent(record) && WellFormed(p)
  {
    var stem := Stem(Name(record));
    MaskStemIsPart(record);
    ParseOfPart(stem + "_mask");
    WithSuffix(Join(Parent(record), Parse(stem + "_mask")), ".npy")
  }

  lemma MaskStemIsPart(record: Path)
    requires WellFormed(record) && Name(record) != ""
    ensures IsPart(Stem(Name(record)) + "_mask")
  {
    var name := Name(record);
    assert IsPart(record.parts[|record.parts| - 1]);
    var stem := Stem(name);
    assert forall c | c in stem :: c in name;
    assert (stem + "_mask")[|stem|] == '_';
  }

  /**
   * The image and the mask sit in the record's directory; the image is named
   * after the record's stem with `.png`, and the two paths always differ.
   */
  lemma {:induction false} ImageAndMaskPaths(record: Path)
    requires WellFormed(record) && Name(record) != ""
    ensures Parent(ImagePath(record)) == Parent(record)
    ensures Parent(MaskPath(record)) == Parent(record)
    ensures Name(ImagePath(record)) == Stem(Name(record)) + ".png"
    ensures ImagePath(record) != MaskPath(record)
  {
    var stem := Stem(Name(record));
    MaskStemIsPart(record);
    ParseOfPart(stem + "_mask");
    var image, mask := Name(ImagePath(record)), Name(MaskPath(record));
    assert image[|image| - 2] == 'n' && mask[|mask| - 2] == 'p';
  }

  /**
   * The mask is named `<stem>_mask.npy` when the stem has no suffix of its own;
   * when it has one, `with_suffix` replaces that suffix together with `_mask`.
   */
  lemma {:induction false} MaskName(record: Path)
    requires WellFormed(record) && Name(record) != ""
    ensures var stem := Stem(Name(record));
      && (LastDot(stem) <= 0 ==> Name(MaskPath(record)) == stem + "_mask.npy")
      && (LastDot(stem) > 0 ==> Name(MaskPath(record)) == stem[..LastDot(stem)] + ".npy")
  {
    var stem := Stem(Name(record));
    var masked := stem + "_mask";
    MaskStemIsPart(record);
    ParseOfPart(masked);
    LastDotAppend(stem, "_mask");
    if LastDot(stem) > 0 {
      assert masked[..LastDot(stem)] == stem[..LastDot(stem)];
    } else {
      assert masked + ".npy" == stem + "_mask.npy";
    }
  }

  /** Appending text without a dot leaves the last dot where it was. */
  lemma {:induction false} LastDotAppend(s: string, t: string)
    requires '.' !in t
    ensures LastDot(s + t) == LastDot(s)
    decreases |t|
  {
    if t == [] {
      assert s + t == s;
    } else {
      var u := s + t;
      assert u[..|u| - 1] == s + t[..|t| - 1];
      assert u[|u| - 1] == t[|t| - 1] && t[|t| - 1] in t;
      assert forall c | c in t[..|t| - 1] :: c in t;
      LastDotAppend(s, t[..|t| - 1]);
    }
  }

  // ---------------------------------------------------------------- downloads

  /** `download_file(name)`: the bucket object `name` is copied under the downloads directory. */
  function FetchFile(files: Files, directory: string, name: string): Files {
    files[LocalPath(directory, name) := BucketObject(name)]
  }

  /** `download_ecg`: the header and the data file of the record are fetched, in that order. */
  function FetchRecord(files: Files, directory: string, record: string): (fetched: Files)
    ensures forall p | p in files :: p in fetched
    ensures LocalPath(directory, record + ".hea") in fetched && LocalPath(directory, record + ".dat") in fetched
    ensures forall p | p in fetched && p !in files ::
      p == LocalPath(directory, record + ".hea") || p == LocalPath(directory, record + ".dat")
  {
    FetchFile(FetchFile(files, directory, record + ".hea"), directory, record + ".dat")
  }

  /** `_is_ecg_downloaded`: both the header and the data file sit next to the record path. */
  predicate HasRecordFiles(files: Files, local: Path)
    requires Name(local) != ""
  {
    WithSuffix(local, ".hea") in files && WithSuffix(local, ".dat") in files
  }

  /** The record files that `download_ecg` writes are the ones `_is_ecg_downloaded` looks for. */
  predicate SuffixFree(record: string) {
    IsPart(LastSegment(record)) && !HasSuffix(LastSegment(record))
  }

  /**
   * For a record whose file name has no suffix, appending a suffix to the
   * record string names the same file as `with_suffix` on the local record path.
   */
  lemma {:induction false} DownloadedPathsAgree(directory: string, record: string, suffix: string)
    requires SuffixFree(record) && ValidSuffix(suffix)
    ensures Name(LocalPath(directory, record)) != ""
    ensures LocalPath(directory, record + suffix) == WithSuffix(LocalPath(directory, record), suffix)
  {
    AppendIsWithSuffix(record, suffix);
    JoinWithSuffix(Parse(directory), Parse(record), suffix);
  }

  /** A record whose file name has no suffix counts as downloaded once `download_ecg` has run. */
  lemma {:induction false} FetchedRecordIsDownloaded(files: Files, directory: string, record: string)
    requires SuffixFree(record)
    ensures Name(LocalPath(directory, record)) != ""
    ensures HasRecordFiles(FetchRecord(files, directory, record), LocalPath(directory, record))
  {
    DownloadedPathsAgree(directory, record, ".hea");
    DownloadedPathsAgree(directory, record, ".dat");
  }

  /**
   * A record whose file name has a suffix of its own, such as `r/a.b`, is
   * fetched as `r/a.b.hea` and `r/a.b.dat` but looked for as `r/a.hea` and
   * `r/a.dat`: unless the header it is looked for under was already there,
   * fetching it does not make it count as downloaded.
   */
  lemma {:induction false} DottedRecordIsNotDownloadedByFetch(files: Files, directory: string, record: string)
    requires IsPart(LastSegment(record)) && HasSuffix(LastSegment(record))
    ensures Name(LocalPath(directory, record)) == LastSegment(record)
    ensures WithSuffix(LocalPath(directory, record), ".hea") !in files ==>
      !HasRecordFiles(FetchRecord(files, directory, record), LocalPath(directory, record))
  {
    LookedForHeaderIsNotFetched(directory, record);
  }

  /** The header `_is_ecg_downloaded` looks for is neither of the two files `download_ecg` writes for a dotted record. */
  lemma {:induction false} LookedForHeaderIsNotFetched(directory: string, record: string)
    requires IsPart(LastSegment(record)) && HasSuffix(LastSegment(record))
    ensures Name(LocalPath(directory, record)) == LastSegment(record)
    ensures WithSuffix(LocalPath(directory, record), ".hea") != LocalPath(directory, record + ".hea")
    ensures WithSuffix(LocalPath(directory, record), ".hea") != LocalPath(directory, record + ".dat")
  {
    var last := LastSegment(record);
    assert Name(LocalPath(directory, record)) == last by {
      NameOfLocalAppend(directory, record, "");
      assert record + "" == record;
    }
    NameOfLocalAppend(directory, record, ".hea");
    NameOfLocalAppend(directory, record, ".dat");
    assert |Stem(last)| < |last|;
  }

  /** Appending text without a separator to a record extends the name of its local path by that text. */
  lemma {:induction false} NameOfLocalAppend(directory: string, record: string, t: string)
    requires IsPart(LastSegment(record)) && '/' !in t
    ensures Name(LocalPath(directory, record + t)) == LastSegment(record) + t
  {
    ParseAppend(record, t);
  }

  /** Repeating the same two writes changes nothing. */
  lemma UpdateTwice(m: Files, a: Path, x: FileContent, b: Path, y: FileContent)
    ensures m[a := x][b := y][a := x][b := y] == m[a := x][b := y]
  {
  }

  /** The tables still missing after looking at `names` in order, each fetched when absent. */
  function FetchMissing(files: Files, directory: string, names: seq<string>): (result: Files)
    ensures forall p | p in files :: p in result && result[p] == files[p]
    decreases |names|
  {
    if names == [] then files
    else
      var before := FetchMissing(files, directory, names[..|names| - 1]);
      var name := names[|names| - 1];
      if LocalPath(directory, name) in before then before else FetchFile(before, directory, name)
  }

  /** Looking at one more table fetches it exactly when it is still absent. */
  lemma {:induction false} FetchMissingStep(files: Files, directory: string, names: seq<string>, i: nat)
    requires i < |names|
    ensures var before := FetchMissing(files, directory, names[..i]);
      FetchMissing(files, directory, names[..i + 1]) ==
        if LocalPath(directory, names[i]) in before then before else FetchFile(before, directory, names[i])
  {
    assert names[..i + 1][..i] == names[..i];
  }

  /** After the check-and-fetch loop, every table is present (`FetchMissing` itself keeps what was there). */
  lemma {:induction false} FetchMissingProvidesAll(files: Files, directory: string, names: seq<string>)
    ensures forall i | 0 <= i < |names| :: LocalPath(directory, names[i]) in FetchMissing(files, directory, names)
    decreases |names|
  {
    if names != [] {
      var init := names[..|names| - 1];
      FetchMissingProvidesAll(files, directory, init);
      assert forall i | 0 <= i < |init| :: names[i] == init[i];
    }
  }

  // ---------------------------------------------------------------- the manager

  class EcgManager {
    /** Where bucket objects, images and masks are stored. */
    const downloadsDirectory: string
    const downloadIfMissing: bool
    const generateImagesIfMissing: bool
    /** The `filename_lr` column of the record table, by `ecg_id`. */
    const labels: map<int, string>
    /** The local file system. */
    var files: Files

    /**
     * `PtbXlEcgManager(...)`: the downloads directory defaults when missing or
     * empty, and the two tables are fetched when absent. The table content is
     * given as `labels`; the file system starts as `existing`.
     */
    constructor (
      downloadsDirectory: Option<string>,
      downloadIfMissing: bool,
      generateImagesIfMissing: bool,
      labels: map<int, string>,
      existing: Files)
      ensures this.downloadsDirectory ==
        if downloadsDirectory.None? || downloadsDirectory.value == "" then DefaultDownloadsDirectory
        else downloadsDirectory.value
      ensures this.downloadIfMissing == downloadIfMissing
      ensures this.generateImagesIfMissing == generateImagesIfMissing
      ensures this.labels == labels
      ensures files == FetchMissing(existing, this.downloadsDirectory, LabelTables)
    {
      this.downloadsDirectory :=
        if downloadsDirectory.None? || downloadsDirectory.value == "" then DefaultDownloadsDirectory
        else downloadsDirectory.value;
      this.downloadIfMissing := downloadIfMissing;
      this.generateImagesIfMissing := generateImagesIfMissing;
      this.labels := labels;
      files := existing;
      new;
      LoadEcgLabels();
    }

    /**
     * `_load_ecg_labels`: each table is fetched when it is not yet under the
     * downloads directory. Reading the record table is left to the caller.
     */
    method LoadEcgLabels()
      modifies this
      ensures files == FetchMissing(old(files), downloadsDirectory, LabelTables)
    {
      var tables := LabelTables;
      for i := 0 to |tables|
        invariant files == FetchMissing(old(files), downloadsDirectory, tables[..i])
      {
        FetchMissingStep(old(files), downloadsDirectory, tables, i);
        if LocalPath(downloadsDirectory, tables[i]) !in files {
          DownloadFile(tables[i]);
        }
      }
      assert tables[..|tables|] == tables;
    }

    /** `gcloud_storage.download_file(name)`: object `name` of the bucket `BucketName` is copied to the local path. */
    method DownloadFile(name: string)
      modifies this
      ensures files == FetchFile(old(files), downloadsDirectory, name)
    {
      files := files[LocalPath(downloadsDirectory, name) := BucketObject(name)];
    }

    /** `_ecg_local_path_no_suffix(ecg_id)` for a record in the table. */
    function RecordPath(id: int): (p: Path)
      requires id in labels
      ensures WellFormed(p)
    {
      LocalPath(downloadsDirectory, labels[id])
    }

    /** The record is in the table and its path has a name, so `with_suffix` does not raise on it. */
    predicate Addressable(id: int) {
      id in labels && Name(RecordPath(id)) != ""
    }

    /** `_is_ecg_downloaded`, on a given file system. */
    predicate Downloaded(fs: Files, id: int)
      requires Addressable(id)
    {
      HasRecordFiles(fs, RecordPath(id))
    }

    /** `_is_ecg_image_and_mask_generated`, on a given file system. */
    predicate Generated(fs: Files, id: int)
      requires Addressable(id)
    {
      ImagePath(RecordPath(id)) in fs && MaskPath(RecordPath(id)) in fs
    }

    /** `_is_ecg_downloaded(ecg_id)`, with the exceptions it raises. */
    function IsEcgDownloaded(id: int): (r: Result<bool, Error>)
      reads this
      ensures r == Failure(KeyError) <==> id !in labels
      ensures r == Failure(ValueError) <==> id in labels && !Addressable(id)
      ensures r.Success? ==> Addressable(id) && (r.value <==> Downloaded(files, id))
    {
      if id !in labels then Failure(KeyError)
      else if Name(RecordPath(id)) == "" then Failure(ValueError)
      else Success(Downloaded(files, id))
    }

    /** `_is_ecg_image_and_mask_generated(ecg_id)`, with the exceptions it raises. */
    function IsEcgImageAndMaskGenerated(id: int): (r: Result<bool, Error>)
      reads this
      ensures r == Failure(KeyError) <==> id !in labels
      ensures r == Failure(ValueError) <==> id in labels && !Addressable(id)
      ensures r.Success? ==> Addressable(id) && (r.value <==> Generated(files, id))
    {
      if id !in labels then Failure(KeyError)
      else if Name(RecordPath(id)) == "" then Failure(ValueError)
      else Success(Generated(files, id))
    }

    /** The exception `load_ecg` raises on file system `fs`, if any. */
    function LoadError(fs: Files, id: int): (e: Option<Error>)
      ensures e == Some(KeyError) <==> id !in labels
      ensures e == Some(ValueError) <==> id in labels && !Addressable(id)
      ensures e == Some(NotDownloaded) <==> Addressable(id) && !Downloaded(fs, id) && !downloadIfMissing
      ensures e.None? <==> Addressable(id) && (Downloaded(fs, id) || downloadIfMissing)
    {
      if id !in labels then Some(KeyError)
      else if Name(RecordPath(id)) == "" then Some(ValueError)
      else if !Downloaded(fs, id) && !downloadIfMissing then Some(NotDownloaded)
      else None
    }

    /** The file system after a `load_ecg` that does not raise: the record is fetched when it was missing. */
    function FilesAfterLoad(fs: Files, id: int): (loaded: Files)
      requires Addressable(id)
      ensures forall p | p in fs :: p in loaded
      ensures forall p | p in loaded && p !in fs ::
        p == LocalPath(downloadsDirectory, labels[id] + ".hea") || p == LocalPath(downloadsDirectory, labels[id] + ".dat")
    {
      if Downloaded(fs, id) then fs else FetchRecord(fs, downloadsDirectory, labels[id])
    }

    /**
     * The file system after `plot_ecg` has drawn `record`: with `save`, the
     * annotated chart is written to the image path; with `save_mask` as well,
     * the binarised clean chart is written to the mask path.
     */
    function FilesAfterPlot(
      fs: Files, id: int, save: bool, saveMask: bool, g: Generator, record: EcgRecord,
      rasterise: Figure -> seq<seq<real>>, otsu: seq<seq<real>> -> real): (plotted: Files)
      requires Addressable(id) && record.metadata.fs != 0.0
      ensures !save ==> plotted == fs
      ensures forall p | p in plotted && p !in fs :: p == ImagePath(RecordPath(id)) || p == MaskPath(RecordPath(id))
    {
      if !save then fs
      else
        var withImage := fs[ImagePath(RecordPath(id)) := Png(Plot(g, record.signal, record.metadata, false))];
        if !saveMask then withImage
        else
          var raster := rasterise(Plot(g, record.signal, record.metadata, true));
          withImage[MaskPath(RecordPath(id)) := MaskArray(Binarise(raster, otsu(raster)))]
    }

    /**
     * After a `load_ecg` that does not raise, the record counts as downloaded
     * when it already did or when its file name has no suffix; a record that
     * was downloaded is left as it was.
     */
    lemma {:induction false} LoadLeavesRecordDownloaded(fs: Files, id: int)
      requires LoadError(fs, id).None?
      ensures Downloaded(fs, id) ==> FilesAfterLoad(fs, id) == fs
      ensures Downloaded(fs, id) || SuffixFree(labels[id]) ==> Downloaded(FilesAfterLoad(fs, id), id)
    {
      if !Downloaded(fs, id) && SuffixFree(labels[id]) {
        FetchedRecordIsDownloaded(fs, downloadsDirectory, labels[id]);
      }
    }

    /** Loading twice writes nothing the first load did not. */
    lemma {:induction false} LoadIsIdempotent(fs: Files, id: int)
      requires Addressable(id)
      ensures FilesAfterLoad(FilesAfterLoad(fs, id), id) == FilesAfterLoad(fs, id)
    {
      var once := FilesAfterLoad(fs, id);
      if !Downloaded(once, id) {
        assert !Downloaded(fs, id);
        var record := labels[id];
        var hea, dat := LocalPath(downloadsDirectory, record + ".hea"), LocalPath(downloadsDirectory, record + ".dat");
        UpdateTwice(fs, hea, BucketObject(record + ".hea"), dat, BucketObject(record + ".dat"));
      }
    }

    /** Drawing only adds files: what existed still exists, so a downloaded record stays downloaded. */
    lemma {:induction false} PlotKeepsFiles(
      fs: Files, id: int, save: bool, saveMask: bool, g: Generator, record: EcgRecord,
      rasterise: Figure -> seq<seq<real>>, otsu: seq<seq<real>> -> real)
      requires Addressable(id) && record.metadata.fs != 0.0
      ensures forall p | p in fs :: p in FilesAfterPlot(fs, id, save, saveMask, g, record, rasterise, otsu)
      ensures Downloaded(fs, id) ==> Downloaded(FilesAfterPlot(fs, id, save, saveMask, g, record, rasterise, otsu), id)
    {
    }

    /**
     * Drawing with `save` and `save_mask` leaves both the image and the mask on
     * disk: the image holds the annotated chart, the mask the binarised raster
     * of the clean chart.
     */
    lemma {:induction false} PlotGeneratesImageAndMask(
      fs: Files, id: int, g: Generator, record: EcgRecord,
      rasterise: Figure -> seq<seq<real>>, otsu: seq<seq<real>> -> real)
      requires Addressable(id) && record.metadata.fs != 0.0
      ensures var after := FilesAfterPlot(fs, id, true, true, g, record, rasterise, otsu);
        var raster := rasterise(Plot(g, record.signal, record.metadata, true));
        && Generated(after, id)
        && after[ImagePath(RecordPath(id))] == Png(Plot(g, record.signal, record.metadata, false))
        && after[MaskPath(RecordPath(id))] == MaskArray(Binarise(raster, otsu(raster)))
    {
      ImageAndMaskPaths(RecordPath(id));
    }

    /**
     * When generation goes ahead and the chart can be drawn, both the image
     * and the mask exist afterwards, and the record counts as downloaded when
     * it already did or when its file name has no suffix.
     */
    lemma {:induction false} GenerationLeavesImageAndMask(
      fs: Files, id: int, decode: Path -> EcgRecord,
      rasterise: Figure -> seq<seq<real>>, otsu: seq<seq<real>> -> real)
      requires Addressable(id) && !Generated(fs, id) && generateImagesIfMissing
      requires Downloaded(fs, id) || downloadIfMissing
      requires decode(RecordPath(id)).metadata.fs != 0.0
      ensures var after := FilesAfterPlot(FilesAfterLoad(fs, id), id, true, true, DefaultGenerator(),
                                          decode(RecordPath(id)), rasterise, otsu);
        && Generated(after, id)
        && (Downloaded(fs, id) || SuffixFree(labels[id]) ==> Downloaded(after, id))
    {
      var loaded := FilesAfterLoad(fs, id);
      var record := decode(RecordPath(id));
      LoadLeavesRecordDownloaded(fs, id);
      PlotGeneratesImageAndMask(loaded, id, DefaultGenerator(), record, rasterise, otsu);
      PlotKeepsFiles(loaded, id, true, true, DefaultGenerator(), record, rasterise, otsu);
    }

    /** `download_ecg(ecg_id)`: fetches the header and the data file of the record. */
    method DownloadEcg(id: int) returns (r: Result<(), Error>)
      modifies this
      ensures id !in labels ==> r == Failure(KeyError) && files == old(files)
      ensures id in labels ==> r == Success(()) && files == FetchRecord(old(files), downloadsDirectory, labels[id])
    {
      if id !in labels {
        return Failure(KeyError);
      }
      var ecgPath := labels[id];
      DownloadFile(ecgPath + ".hea");
      DownloadFile(ecgPath + ".dat");
      return Success(());
    }

    /**
     * `load_ecg(ecg_id)`: raises when the record is not downloaded and may not
     * be; otherwise fetches it when missing and decodes the local record.
     */
    method LoadEcg(id: int, decode: Path -> EcgRecord) returns (r: Result<EcgRecord, Error>)
      modifies this
      ensures var e := LoadError(old(files), id);
        && (e.Some? ==> r == Failure(e.value) && files == old(files))
        && (e.None? ==> r == Success(decode(RecordPath(id))) && files == FilesAfterLoad(old(files), id))
    {
      if id !in labels {
        return Failure(KeyError);
      }
      var downloaded := IsEcgDownloaded(id);
      if downloaded.Failure? {
        return Failure(downloaded.error);
      }
      if !downloaded.value {
        if !downloadIfMissing {
          return Failure(NotDownloaded);
        }
        var _ := DownloadEcg(id);
      }
      return Success(decode(RecordPath(id)));
    }

    /**
     * `plot_ecg(ecg_id, save, save_mask, **kwargs)` with the generator `g` the
     * keyword arguments configure: loads the record, draws the annotated chart
     * and, as asked, saves it and the mask of the clean chart.
     */
    method PlotEcg(
      id: int, save: bool, saveMask: bool, g: Generator, decode: Path -> EcgRecord,
      rasterise: Figure -> seq<seq<real>>, otsu: seq<seq<real>> -> real)
      returns (r: Result<Figure, Error>)
      modifies this
      ensures var e := LoadError(old(files), id);
        && (e.Some? ==> r == Failure(e.value) && files == old(files))
        && (e.None? ==>
              var record := decode(RecordPath(id));
              var loaded := FilesAfterLoad(old(files), id);
              var failure := ChartFailure(g, record.metadata);
              && (failure.Some? ==> r == Failure(ChartException(failure.value)) && files == loaded)
              && (failure.None? ==>
                    && r == Success(Plot(g, record.signal, record.metadata, false))
                    && files == FilesAfterPlot(loaded, id, save, saveMask, g, record, rasterise, otsu)))
    {
      var loaded := LoadEcg(id, decode);
      if loaded.Failure? {
        return Failure(loaded.error);
      }
      var ecg, metadata := loaded.value.signal, loaded.value.metadata;
      var plotted := EcgImageGenerator.PlotEcg(g, ecg, metadata, false);
      if plotted.Failure? {
        return Failure(ChartException(plotted.error));
      }
      var fig := plotted.value;
      if !save {
        return Success(fig);
      }
      files := files[ImagePath(RecordPath(id)) := Png(fig)];
      if !saveMask {
        return Success(fig);
      }
      var plottedClean := EcgImageGenerator.PlotEcg(g, ecg, metadata, true);
      var image := rasterise(plottedClean.value);
      var threshold := otsu(image);
      var binary := Binarise(image, threshold);
      files := files[MaskPath(RecordPath(id)) := MaskArray(binary)];
      return Success(fig);
    }

    /**
     * `_generate_image_and_mask_if_missing(ecg_id)`: nothing to do when both
     * files exist; otherwise raises when generation or the needed download is
     * not allowed, and else fetches the record when missing and draws and saves
     * the chart and its mask with the default generator.
     */
    method GenerateImageAndMaskIfMissing(
      id: int, decode: Path -> EcgRecord,
      rasterise: Figure -> seq<seq<real>>, otsu: seq<seq<real>> -> real)
      returns (r: Result<(), Error>)
      modifies this
      ensures id !in labels ==> r == Failure(KeyError) && files == old(files)
      ensures id in labels && !Addressable(id) ==> r == Failure(ValueError) && files == old(files)
      ensures Addressable(id) && Generated(old(files), id) ==> r == Success(()) && files == old(files)
      ensures Addressable(id) && !Generated(old(files), id) && !generateImagesIfMissing ==>
        r == Failure(ImagesNotGenerated) && files == old(files)
      ensures (Addressable(id) && !Generated(old(files), id) && generateImagesIfMissing
               && !Downloaded(old(files), id) && !downloadIfMissing) ==>
        r == Failure(NotDownloaded) && files == old(files)
      ensures (Addressable(id) && !Generated(old(files), id) && generateImagesIfMissing
               && (Downloaded(old(files), id) || downloadIfMissing)) ==>
        var loaded := FilesAfterLoad(old(files), id);
        var record := decode(RecordPath(id));
        var failure := ChartFailure(DefaultGenerator(), record.metadata);
        && (failure.Some? ==> r == Failure(ChartException(failure.value)) && files == loaded)
        && (failure.None? ==>
              r == Success(()) && files == FilesAfterPlot(loaded, id, true, true, DefaultGenerator(), record, rasterise, otsu))
      ensures r.Success? ==> Addressable(id) && Generated(files, id)
    {
      var generated := IsEcgImageAndMaskGenerated(id);
      if generated.Failure? {
        return Failure(generated.error);
      }
      if !generated.value {
        if !generateImagesIfMissing {
          return Failure(ImagesNotGenerated);
        }
        var downloaded := IsEcgDownloaded(id);
        if !downloaded.value {
          if !downloadIfMissing {
            return Failure(NotDownloaded);
          }
          var _ := DownloadEcg(id);
        }
        assert files == FilesAfterLoad(old(files), id);
        LoadIsIdempotent(old(files), id);
        var loaded := files;
        var plotted := PlotEcg(id, true, true, DefaultGenerator(), decode, rasterise, otsu);
        if plotted.Failure? {
          return Failure(plotted.error);
        }
        PlotGeneratesImageAndMask(loaded, id, DefaultGenerator(), decode(RecordPath(id)), rasterise, otsu);
      }
      return Success(());
    }
  }

  /**
   * A manager created without a downloads directory uses `ptb_xl_data`, and
   * afterwards both tables are present under it.
   */
  lemma {:induction false} TablesPresentAfterCreation(existing: Files, directory: Option<string>)
    ensures var d := if directory.None? || directory.value == "" then DefaultDownloadsDirectory else directory.value;
      && (directory.None? ==> d == "ptb_xl_data")
      && forall i | 0 <= i < |LabelTables| :: LocalPath(d, LabelTables[i]) in FetchMissing(existing, d, LabelTables)
  {
    var d := if directory.None? || directory.value == "" then DefaultDownloadsDirectory else directory.value;
    FetchMissingProvidesAll(existing, d, LabelTables);
  }
}
