/** The part of the operating system's file system that scaffolding touches:
    a set of directories and a map from file path to contents. Paths are
    compared as strings. `refused` stands for everything the model does not
    look into (missing parent directories, permissions, read-only media):
    the paths at which the system declines to create anything. */
module Files {
  import opened Basics

  datatype FsState = FsState(dirs: set<string>, files: map<string, string>)

  /** The classes of `OSError` that the callers tell apart. */
  datatype OsError = NotFound | OtherOsError

  /** What `os.makedirs(p, exist_ok=True)` raises, if anything: the empty
      path gives `FileNotFoundError`; a regular file at `p`, or a refused
      path that is not already a directory, gives another `OSError`; an
      existing directory is accepted as it is. */
  function MakeDirsError(st: FsState, refused: set<string>, p: string): Option<OsError>
  {
    if p == [] then Some(NotFound)
    else if p in st.files then Some(OtherOsError)
    else if p in st.dirs || p !in refused then None
    else Some(OtherOsError)
  }

  function AfterMakeDirs(st: FsState, p: string): FsState
  {
    st.(dirs := st.dirs + {p})
  }

  /** `open(p, 'w')` succeeds: not a directory, not a path that ends in a
      separator (a directory name), and not refused. */
  predicate WriteOk(st: FsState, refused: set<string>, p: string)
  {
    p != [] && p[|p| - 1] != '/' && p !in st.dirs && p !in refused
  }

  /** Opening for writing truncates, so the file then holds exactly `content`. */
  function AfterWrite(st: FsState, p: string, content: string): FsState
  {
    st.(files := st.files[p := content])
  }

  class FileSystem {
    var dirs: set<string>
    var files: map<string, string>
    const refused: set<string>

    constructor (dirs0: set<string>, files0: map<string, string>, refused0: set<string>)
      ensures dirs == dirs0 && files == files0 && refused == refused0
    {
      dirs := dirs0;
      files := files0;
      refused := refused0;
    }

    function State(): FsState
      reads this
    {
      FsState(dirs, files)
    }

    /** `os.makedirs(p, exist_ok=True)`; on an error nothing changes. */
    method MakeDirs(p: string) returns (err: Option<OsError>)
      modifies this
      ensures err == MakeDirsError(old(State()), refused, p)
      ensures State() == if err.None? then AfterMakeDirs(old(State()), p) else old(State())
    {
      if p == [] {
        err := Some(NotFound);
      } else if p in files || (p !in dirs && p in refused) {
        err := Some(OtherOsError);
      } else {
        err := None;
        dirs := dirs + {p};
      }
    }

    /** `open(p, 'w')` followed by `write(content)`; `ok` is false where the
        open raises, and then nothing changes. */
    method Write(p: string, content: string) returns (ok: bool)
      modifies this
      ensures ok == WriteOk(old(State()), refused, p)
      ensures State() == if ok then AfterWrite(old(State()), p, content) else old(State())
    {
      ok := p != [] && p[|p| - 1] != '/' && p !in dirs && p !in refused;
      if ok {
        files := files[p := content];
      }
    }
  }

  /** Creating a directory twice is creating it once. */
  lemma MakeDirsIdempotent(st: FsState, refused: set<string>, p: string)
    requires MakeDirsError(st, refused, p).None?
    ensures MakeDirsError(AfterMakeDirs(st, p), refused, p).None?
    ensures AfterMakeDirs(AfterMakeDirs(st, p), p) == AfterMakeDirs(st, p)
  {
  }

  /** A second write to the same path replaces the first. */
  lemma LastWriteWins(st: FsState, p: string, c1: string, c2: string)
    ensures AfterWrite(AfterWrite(st, p, c1), p, c2) == AfterWrite(st, p, c2)
  {
  }
}
