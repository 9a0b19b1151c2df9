/** The documents a repository keeps under its `.epm` folder, read with
    `getSync` and written with `setSync` through a file gateway: the file
    ledger (`files-file`), the package registry (`packages-file`), the tag
    lists (`tags-file`), the remotes (`remotes-file`), fetched remote
    manifests (`remote-folder/<name>`) and per-package metadata
    (`data-folder/<uid>`).  `getSync` hands out a copy, so a document
    changes only when it is written back; every write is logged. */
module Store {
  import opened Wrappers
  import Builds
  import Engine

  /** `{mtime, size}` as stored in the ledger. */
  datatype Stats = Stats(mtime: int, size: int)

  /** A ledger entry: stats (absent for a deleted file), status code
      (-1 deleted, 0 unchanged, 1 added, 2 changed) and checksum. */
  datatype Entry = Entry(stats: Option<Stats>, code: int, checksum: Option<string>)

  /** What a `fileStatus` reports: stats (absent for a missing file),
      code and, when it hashed the file, the fresh checksum. */
  datatype Status = Status(stats: Option<Stats>, code: int, checksum: Option<string>)

  /** `tracked[name]`, undefined when the ledger has no such name. */
  function Get(ledger: map<string, Entry>, name: string): (e: Option<Entry>)
    ensures e.Some? <==> name in ledger
    ensures e.Some? ==> e.value == ledger[name]
  {
    if name in ledger then Some(ledger[name]) else None
  }

  /** A file on disk: its stats and its content. */
  datatype DiskFile = DiskFile(mtime: int, size: int, content: string)

  function StatsOf(f: DiskFile): Stats {
    Stats(f.mtime, f.size)
  }

  /** `packages[uid]`: the build and the file holding the package. */
  datatype PkgRecord = PkgRecord(build: Builds.BuildField, filename: string)

  /** The `packages-file` document: `packages: uid -> record` and `files: filename -> uid`. */
  datatype Packages = Packages(packages: map<string, PkgRecord>, files: map<string, string>)

  /** A `remotes-file` entry. */
  datatype Remote = Remote(url: string)

  /** One package of a fetched remote manifest. */
  datatype RemotePkg = RemotePkg(uid: string, build: Builds.BuildField, checksum: string, filename: string)

  /** Which document a `setSync` wrote. */
  datatype Doc = FilesDoc | PackagesDoc | TagsDoc | RemotesDoc | DataDoc(uid: string)

  /** The registry documents together, as one value. */
  datatype Registry = Registry(pkgs: Packages, tags: map<string, seq<string>>, data: map<string, Engine.Meta>,
                               writes: seq<Doc>)

  class Gateway {
    var ledger: map<string, Entry>
    var pkgs: Packages
    var tags: map<string, seq<string>>
    var data: map<string, Engine.Meta>
    var remotes: map<string, Remote>
    var manifests: map<string, seq<RemotePkg>>
    var writes: seq<Doc>

    /** A fresh repository: every document at its default. */
    constructor()
      ensures ledger == map[] && pkgs == Packages(map[], map[]) && tags == map[] && data == map[]
      ensures remotes == map[] && manifests == map[] && writes == []
    {
      ledger := map[];
      pkgs := Packages(map[], map[]);
      tags := map[];
      data := map[];
      remotes := map[];
      manifests := map[];
      writes := [];
    }

    function Docs(): Registry
      reads this
    {
      Registry(pkgs, tags, data, writes)
    }
  }

  /** Files of the local file system by path, as far as downloads and
      renames touch them. */
  class Folder {
    var files: map<string, string>

    constructor(files: map<string, string>)
      ensures this.files == files
    {
      this.files := files;
    }
  }
}
