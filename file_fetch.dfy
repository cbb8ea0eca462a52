/**
 * The write-once GRIB cache: a file for (run date, forecast hour) lives at
 * CACHE_DIR/YYYYMMDD/<file name>; it is downloaded from the bucket only
 * when nothing exists at that path yet.
 */
module FileFetch {
  import opened Wrappers
  import Utils

  /** `os.path.join(a, b)` on POSIX: an absolute `b` replaces `a`, otherwise one separator joins them. */
  function Join(a: string, b: string): (p: string)
    ensures |b| > 0 && b[0] == '/' ==> p == b
    ensures (|b| == 0 || b[0] != '/') ==>
      |p| >= |b| && p[|p| - |b|..] == b && (p[..|p| - |b|] == a || p[..|p| - |b|] == a + "/")
  {
    if |b| > 0 && b[0] == '/' then b
    else if a == [] || a[|a| - 1] == '/' then a + b
    else a + "/" + b
  }

  /**
   * The names the cache uses that are defined outside the model:
   * CACHE_DIR, `get_grib_s3_key` and `build_grib_file_path`. `s3Key` is
   * the function `RunDate` takes as `keyFor`, here on calendar dates.
   */
  datatype Layout = Layout(cacheDir: string, s3Key: (Utils.Date, int) -> string, fileName: int -> string)

  /** `os.path.join(CACHE_DIR, f"{run_date:%Y%m%d}")`. */
  function DateFolder(layout: Layout, d: Utils.Date): string {
    Join(layout.cacheDir, Utils.FormatDate(d))
  }

  /** `os.path.join(date_folder, build_grib_file_path(forecast_hour))`. */
  function CachePath(layout: Layout, d: Utils.Date, h: int): string {
    Join(DateFolder(layout, d), layout.fileName(h))
  }

  /** One call of `s3_client.download_file(bucket, key, local_path)`. */
  datatype Download = Download(bucket: string, key: string, path: string)

  /** Whether a download of (bucket, key) succeeds. */
  type S3 = (string, string) -> bool

  /** The filesystem as the cache sees it, and the downloads performed so far. */
  datatype Fs = Fs(files: set<string>, dirs: set<string>, downloads: seq<Download>)

  /** `os.path.exists`: a file or a directory. */
  predicate Exists(fs: Fs, p: string) {
    p in fs.files || p in fs.dirs
  }

  datatype FetchError = DownloadFailed(bucket: string, key: string)

  /**
   * Reference definition of `download_and_cache_file`: the new filesystem
   * and the returned path, or the download's error.
   */
  function Fetch(layout: Layout, s3: S3, fs: Fs, bucket: string, d: Utils.Date, h: int): (out: (Fs, Result<string, FetchError>))
    ensures DateFolder(layout, d) in out.0.dirs && out.0.dirs == fs.dirs + {DateFolder(layout, d)}
    ensures fs.files <= out.0.files <= fs.files + {CachePath(layout, d, h)}
    ensures |fs.downloads| <= |out.0.downloads| <= |fs.downloads| + 1 && out.0.downloads[..|fs.downloads|] == fs.downloads
    ensures out.1.Success? ==> out.1.value == CachePath(layout, d, h) && Exists(out.0, out.1.value)
    ensures out.1.Failure? ==> !Exists(out.0, CachePath(layout, d, h))
  {
    var folder := DateFolder(layout, d);
    var fs1 := fs.(dirs := fs.dirs + {folder});
    var path := Join(folder, layout.fileName(h));
    if Exists(fs1, path) then (fs1, Success(path))
    else
      var key := layout.s3Key(d, h);
      var fs2 := fs1.(downloads := fs1.downloads + [Download(bucket, key, path)]);
      if s3(bucket, key) then (fs2.(files := fs2.files + {path}), Success(path))
      else (fs2, Failure(DownloadFailed(bucket, key)))
  }

  /** A file already at the cache path is returned without a download. */
  lemma CacheHit(layout: Layout, s3: S3, fs: Fs, bucket: string, d: Utils.Date, h: int)
    requires CachePath(layout, d, h) in fs.files
    ensures var (fs', r) := Fetch(layout, s3, fs, bucket, d, h);
      r == Success(CachePath(layout, d, h)) && fs'.files == fs.files && fs'.downloads == fs.downloads
  {
  }

  /**
   * Nothing at the cache path: exactly one download, of the object's key
   * into exactly that path; the file exists afterwards when it succeeds.
   */
  lemma CacheMiss(layout: Layout, s3: S3, fs: Fs, bucket: string, d: Utils.Date, h: int)
    requires !Exists(fs, CachePath(layout, d, h)) && CachePath(layout, d, h) != DateFolder(layout, d)
    ensures var (fs', r) := Fetch(layout, s3, fs, bucket, d, h);
      fs'.downloads == fs.downloads + [Download(bucket, layout.s3Key(d, h), CachePath(layout, d, h))] &&
      (s3(bucket, layout.s3Key(d, h)) ==> r == Success(CachePath(layout, d, h)) && fs'.files == fs.files + {CachePath(layout, d, h)}) &&
      (!s3(bucket, layout.s3Key(d, h)) ==> r == Failure(DownloadFailed(bucket, layout.s3Key(d, h))) && fs'.files == fs.files)
  {
  }

  /**
   * Two calls for the same date and hour download at most once when the
   * download succeeds; the second call changes nothing and returns the
   * same path.
   */
  lemma FetchTwice(layout: Layout, s3: S3, fs: Fs, bucket: string, d: Utils.Date, h: int)
    requires s3(bucket, layout.s3Key(d, h))
    ensures var (fs1, r1) := Fetch(layout, s3, fs, bucket, d, h);
      var (fs2, r2) := Fetch(layout, s3, fs1, bucket, d, h);
      |fs2.downloads| <= |fs.downloads| + 1 && fs2 == fs1 && r2 == r1 == Success(CachePath(layout, d, h))
  {
    var (fs1, r1) := Fetch(layout, s3, fs, bucket, d, h);
    assert fs1.dirs + {DateFolder(layout, d)} == fs1.dirs;
  }

  /** Distinct run dates use distinct date folders. */
  lemma DateFolderInjective(layout: Layout, d1: Utils.Date, d2: Utils.Date)
    requires DateFolder(layout, d1) == DateFolder(layout, d2)
    ensures d1 == d2
  {
    var s1 := Utils.FormatDate(d1);
    var s2 := Utils.FormatDate(d2);
    assert s1[0] != '/' && s2[0] != '/';
    var p := DateFolder(layout, d1);
    assert s1 == p[|p| - 8..] == s2;
    Utils.FormatDateRoundTrip(d1);
    Utils.FormatDateRoundTrip(d2);
  }

  /**
   * The cache as the process sees it: the layout constants, the local
   * filesystem and the downloads the S3 client has performed.
   */
  class Cache {
    const layout: Layout
    var files: set<string>
    var dirs: set<string>
    var downloads: seq<Download>

    function State(): Fs
      reads this
    {
      Fs(files, dirs, downloads)
    }

    /** Importing the module: `os.makedirs(CACHE_DIR, exist_ok=True)`. */
    constructor (layout: Layout, files: set<string>, dirs: set<string>)
      ensures this.layout == layout
      ensures State() == Fs(files, dirs + {layout.cacheDir}, [])
    {
      this.layout := layout;
      this.files := files;
      this.dirs := dirs + {layout.cacheDir};
      downloads := [];
    }

    /** `download_s3_file`: one download into `localPath`. */
    method DownloadS3File(s3: S3, bucket: string, key: string, localPath: string) returns (r: Result<(), FetchError>)
      modifies this
      ensures downloads == old(downloads) + [Download(bucket, key, localPath)]
      ensures dirs == old(dirs)
      ensures s3(bucket, key) ==> r.Success? && files == old(files) + {localPath}
      ensures !s3(bucket, key) ==> r == Failure(DownloadFailed(bucket, key)) && files == old(files)
    {
      downloads := downloads + [Download(bucket, key, localPath)];
      if s3(bucket, key) {
        files := files + {localPath};
        r := Success(());
      } else {
        r := Failure(DownloadFailed(bucket, key));
      }
    }

    /** `download_and_cache_file`. */
    method DownloadAndCacheFile(s3: S3, bucket: string, runDate: Utils.Date, forecastHour: int)
      returns (r: Result<string, FetchError>)
      modifies this
      ensures (State(), r) == Fetch(layout, s3, old(State()), bucket, runDate, forecastHour)
    {
      var dateFolder := Join(layout.cacheDir, Utils.FormatDate(runDate));
      dirs := dirs + {dateFolder};
      var cachePath := Join(dateFolder, layout.fileName(forecastHour));
      if !(cachePath in files || cachePath in dirs) {
        var s3Key := layout.s3Key(runDate, forecastHour);
        var downloaded := DownloadS3File(s3, bucket, s3Key, cachePath);
        if downloaded.Failure? {
          return Failure(downloaded.error);
        }
      }
      return Success(cachePath);
    }

    /** `get_grib_file_path`: the same call under the name the pipeline uses. */
    method GetGribFilePath(s3: S3, bucket: string, runDate: Utils.Date, forecastHour: int)
      returns (r: Result<string, FetchError>)
      modifies this
      ensures (State(), r) == Fetch(layout, s3, old(State()), bucket, runDate, forecastHour)
    {
      r := DownloadAndCacheFile(s3, bucket, runDate, forecastHour);
    }
  }
}
