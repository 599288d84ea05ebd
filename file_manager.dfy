/** The media directories and their naming rules (downloads/file_manager.py).
    The two directories under the media root, TEMP_DIR ("temp", the
    full-length source cache) and DOWNLOAD_DIR ("downloads", the cut
    segments), are maps from entry name to entry. */
module FileManager {
  import opened Common

  datatype Dir = TempDir | DownloadDir

  datatype Path = Path(dir: Dir, name: string)

  /** What `os.stat` reports of an entry: modification time (whole
      seconds), size in bytes, and whether it is a directory. */
  datatype Entry = Entry(mtime: int, size: nat, isDir: bool)

  function DirName(d: Dir): string {
    match d
    case TempDir => "temp"
    case DownloadDir => "downloads"
  }

  /** The path as text, relative to the media root. */
  function PathString(p: Path): string {
    DirName(p.dir) + "/" + p.name
  }

  /** Distinct paths are written differently. */
  lemma PathStringInjective(p1: Path, p2: Path)
    requires PathString(p1) == PathString(p2)
    ensures p1 == p2
  {
    assert PathString(p1)[0] == DirName(p1.dir)[0];
    assert PathString(p2)[0] == DirName(p2.dir)[0];
    assert p1.dir == p2.dir;
    DropCommonPrefix(DirName(p1.dir) + "/", p1.name, p2.name);
  }

  /** The cache file name for a (video id, quality) key. */
  function TempName(youtubeId: string, quality: string): string {
    youtubeId + "_" + quality + ".mp4"
  }

  /** `get_temp_path`: TEMP_DIR / "{youtube_id}_{quality}.mp4". */
  function GetTempPath(youtubeId: string, quality: string): (p: Path)
    ensures p.dir == TempDir
  {
    Path(TempDir, TempName(youtubeId, quality))
  }

  /** `get_output_filename`: "{youtube_id}_{start}_{end}.mp4"; the quality
      argument takes no part in the name. */
  function GetOutputFilename(youtubeId: string, start: int, end: int, quality: string): string {
    youtubeId + "_" + IntToString(start) + "_" + IntToString(end) + ".mp4"
  }

  /** `get_output_path`: DOWNLOAD_DIR / filename. */
  function GetOutputPath(filename: string): (p: Path)
    ensures p.dir == DownloadDir && p.name == filename
  {
    Path(DownloadDir, filename)
  }

  /** With ids of the platform's fixed length, distinct cache keys get
      distinct cache files. */
  lemma {:induction false} TempNamesDistinct(id1: string, q1: string, id2: string, q2: string)
    requires |id1| == 11 && |id2| == 11
    requires TempName(id1, q1) == TempName(id2, q2)
    ensures id1 == id2 && q1 == q2
  {
    var s := TempName(id1, q1);
    assert id1 == s[..11] == id2;
    assert q1 + ".mp4" == s[12..] == q2 + ".mp4";
    assert q1 == (q1 + ".mp4")[..|q1|];
    assert q2 == (q2 + ".mp4")[..|q2|];
  }

  /** Without the fixed length, two keys can share a cache file. */
  lemma TempNamesCollide()
    ensures TempName("a_b", "c") == TempName("a", "b_c")
  {
  }

  /** Two jobs for the same segment in different qualities write the same output file. */
  lemma OutputNameIgnoresQuality(youtubeId: string, start: int, end: int, q1: string, q2: string)
    ensures GetOutputFilename(youtubeId, start, end, q1) == GetOutputFilename(youtubeId, start, end, q2)
  {
  }

  lemma OutputNameShape(youtubeId: string, start: int, end: int, quality: string)
    ensures GetOutputFilename(youtubeId, start, end, quality)
         == (youtubeId + "_") + (IntToString(start) + "_" + (IntToString(end) + ".mp4"))
  {
  }

  /** For one video, distinct segments get distinct output files. */
  lemma OutputNamesDistinct(youtubeId: string, s1: int, e1: int, s2: int, e2: int, q1: string, q2: string)
    requires GetOutputFilename(youtubeId, s1, e1, q1) == GetOutputFilename(youtubeId, s2, e2, q2)
    ensures s1 == s2 && e1 == e2
  {
    var a1, a2 := IntToString(s1), IntToString(s2);
    var b1, b2 := IntToString(e1) + ".mp4", IntToString(e2) + ".mp4";
    OutputNameShape(youtubeId, s1, e1, q1);
    OutputNameShape(youtubeId, s2, e2, q2);
    DropCommonPrefix(youtubeId + "_", a1 + "_" + b1, a2 + "_" + b2);
    NotInIntToString(s1, '_');
    NotInIntToString(s2, '_');
    SplitAtFirst(a1, b1, a2, b2, '_');
    DropCommonSuffix(IntToString(e1), IntToString(e2), ".mp4");
    IntToStringInjective(s1, s2);
    IntToStringInjective(e1, e2);
  }

  /** The entries of `dir` that an age sweep with this cutoff keeps: those
      modified at or after the cutoff, and those whose removal fails. */
  function Survivors(dir: map<string, Entry>, cutoff: int, undeletable: set<string>): (kept: map<string, Entry>)
    ensures forall n :: n in kept <==> n in dir && (dir[n].mtime >= cutoff || n in undeletable)
    ensures forall n :: n in kept ==> kept[n] == dir[n]
  {
    map n | n in dir && (dir[n].mtime >= cutoff || n in undeletable) :: dir[n]
  }

  /** Sweeping twice with the same cutoff removes nothing more. */
  lemma SweepIdempotent(dir: map<string, Entry>, cutoff: int, undeletable: set<string>)
    ensures Survivors(Survivors(dir, cutoff, undeletable), cutoff, undeletable) == Survivors(dir, cutoff, undeletable)
  {
  }

  /** A longer maximum age (an earlier cutoff) keeps at least as much. */
  lemma SweepKeepsMoreWithEarlierCutoff(dir: map<string, Entry>, c1: int, c2: int, undeletable: set<string>)
    requires c1 <= c2
    ensures Survivors(dir, c2, undeletable).Keys <= Survivors(dir, c1, undeletable).Keys
  {
  }

  class MediaFiles {
    var temp: map<string, Entry>
    var downloads: map<string, Entry>

    constructor (temp: map<string, Entry>, downloads: map<string, Entry>)
      ensures this.temp == temp && this.downloads == downloads
    {
      this.temp := temp;
      this.downloads := downloads;
    }

    function Listing(d: Dir): map<string, Entry>
      reads this
    {
      match d
      case TempDir => temp
      case DownloadDir => downloads
    }

    /** `os.path.exists`. */
    predicate Exists(p: Path)
      reads this
    {
      p.name in Listing(p.dir)
    }

    /** `get_file_size`: the entry's size, 0 for a missing path. */
    function GetFileSize(p: Path): (n: nat)
      reads this
      ensures !Exists(p) ==> n == 0
      ensures Exists(p) ==> n == Listing(p.dir)[p.name].size
    {
      if p.name in Listing(p.dir) then Listing(p.dir)[p.name].size else 0
    }

    /** A tool writes (or overwrites) the file at `p`. */
    method Write(p: Path, e: Entry)
      modifies this
      ensures Listing(p.dir) == old(Listing(p.dir))[p.name := e]
      ensures p.dir == TempDir ==> downloads == old(downloads)
      ensures p.dir == DownloadDir ==> temp == old(temp)
    {
      match p.dir
      case TempDir => temp := temp[p.name := e];
      case DownloadDir => downloads := downloads[p.name := e];
    }

    /** `delete_file`: nothing for an empty path (None) or a missing one;
        otherwise the entry (a whole tree for a directory) goes, unless the
        removal raises OSError (`denied`), which is swallowed. */
    method DeleteFile(p: Option<Path>, denied: bool)
      modifies this
      ensures p.None? || !old(Exists(p.value)) || denied ==> temp == old(temp) && downloads == old(downloads)
      ensures p.Some? && old(Exists(p.value)) && !denied ==>
                Listing(p.value.dir) == old(Listing(p.value.dir)) - {p.value.name}
      ensures p.Some? && p.value.dir == TempDir ==> downloads == old(downloads)
      ensures p.Some? && p.value.dir == DownloadDir ==> temp == old(temp)
    {
      if p.Some? && Exists(p.value) {
        if !denied {
          var path := p.value;
          match path.dir
          case TempDir => temp := temp - {path.name};
          case DownloadDir => downloads := downloads - {path.name};
        }
      }
    }

    /** `cleanup_old_temp_files`: every TEMP_DIR entry last modified
        before `now - maxAgeSeconds` is deleted; `undeletable` names the
        entries whose removal raises. DOWNLOAD_DIR is not touched. */
    method CleanupOldTempFiles(now: int, maxAgeSeconds: int, undeletable: set<string>)
      modifies this
      ensures temp == Survivors(old(temp), now - maxAgeSeconds, undeletable)
      ensures downloads == old(downloads)
    {
      var cutoff := now - maxAgeSeconds;
      ghost var before := temp;
      var names := temp.Keys;
      while names != {}
        invariant names <= before.Keys
        invariant downloads == old(downloads)
        invariant forall n :: n in temp <==> n in before && (n in names || before[n].mtime >= cutoff || n in undeletable)
        invariant forall n :: n in temp ==> temp[n] == before[n]
        decreases names
      {
        var name :| name in names;
        if temp[name].mtime < cutoff {
          DeleteFile(Some(Path(TempDir, name)), name in undeletable);
        }
        names := names - {name};
      }
    }
  }
}
