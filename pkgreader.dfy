/** Reading one package archive through the engine (lib/epm/pkg-reader.js).
    The engine's `readMetadata` is an oracle from a path to the parsed
    metadata, None when the archive cannot be read. */
module PkgReader {
  import opened Wrappers
  import Builds
  import Engine
  import Paths

  /** The `read` event's payload. */
  datatype PkgRead = PkgRead(filename: string, uid: string, build: Builds.Num, meta: Engine.Meta)

  /** `read`: an "<path> is corrupted" error, or the base name of the path,
      the uid as given, and the build defaulting to 1. */
  function Read(path: string, read: string -> Option<Engine.Meta>): (r: Result<PkgRead, string>)
    ensures r.Err? <==> read(path).None?
    ensures r.Err? ==> r.error == path + " is corrupted"
    ensures r.Ok? ==>
      && r.value.meta == read(path).value
      && r.value.uid == r.value.meta.uid
      && r.value.filename == Paths.Basename(path)
      && (r.value.meta.build.NoBuild? || r.value.meta.build.NullBuild? ==> r.value.build == Builds.Int(1))
      && (r.value.meta.build.NumBuild? || r.value.meta.build.TextBuild? ==>
            r.value.build == Builds.ParseInt(r.value.meta.build))
  {
    match read(path)
    case None => Err(path + " is corrupted")
    case Some(meta) => Ok(PkgRead(Paths.Basename(path), meta.uid, Builds.BuildOrOne(meta.build), meta))
  }

  /** Reading a file named under a folder reports that file's own name. */
  lemma ReadNamesTheFile(dir: string, stem: string, ext: string, read: string -> Option<Engine.Meta>)
    requires stem != [] && '/' !in stem
    requires ext != [] && '.' !in ext && '/' !in ext
    requires read(dir + "/" + stem + "." + ext).Some?
    ensures Read(dir + "/" + stem + "." + ext, read).Ok?
    ensures Read(dir + "/" + stem + "." + ext, read).value.filename == stem + "." + ext
  {
    Paths.ExtnameOfFile(dir, stem, ext);
  }
}
