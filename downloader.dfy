/** One package download of a local repository (lib/epm/downloader.js):
    fetch into a temporary file, check its checksum, rename it over the
    destination.  The network answer, the checksum library and the rename
    outcome are parameters; progress and speed reporting are not modelled. */
module Downloader {
  import opened Wrappers
  import opened Store

  datatype Event =
    | Status(message: string)
    | DownloadComplete
    | CheckStarted
    | CheckComplete
    | MoveStarted
    | MoveComplete(to: string)
    | Complete
    | Error(message: string)

  /** What the outside world answers for one download: the body or a
      request/stream error, the checksum library (a sum or its error), and
      the rename error if the rename fails. */
  datatype Env = Env(response: Result<string, string>, hash: string -> Result<string, string>, rename: Option<string>)

  /** `move`: rename the temporary file over the destination. */
  function Moved(files: map<string, string>, tmp: string, to: string, env: Env): (map<string, string>, seq<Event>)
    requires tmp in files
  {
    match env.rename
    case Some(e) => (files, [MoveStarted, Error(e)])
    case None => ((files - {tmp})[to := files[tmp]], [MoveStarted, MoveComplete(to), Complete])
  }

  /** `check`: hash the temporary file; a hash error or a mismatch is an
      error and leaves the file in place; a match goes on to `move`. */
  function Checked(files: map<string, string>, tmp: string, to: string, checksum: string, env: Env)
    : (map<string, string>, seq<Event>)
    requires tmp in files
  {
    match env.hash(files[tmp])
    case Err(e) => (files, [CheckStarted, Error(e)])
    case Ok(sum) =>
      if checksum != sum then (files, [CheckStarted, Error("Checksum error")])
      else
        var m := Moved(files, tmp, to, env);
        (m.0, [CheckStarted, CheckComplete] + m.1)
  }

  /** `download`: a request or stream error removes the temporary file;
      otherwise the body is written there and checked. */
  function Run(files: map<string, string>, tmp: string, to: string, checksum: string, env: Env)
    : (map<string, string>, seq<Event>)
  {
    match env.response
    case Err(e) => (files - {tmp}, [Event.Status("downloading"), Error(e)])
    case Ok(body) =>
      var c := Checked(files[tmp := body], tmp, to, checksum, env);
      (c.0, [Event.Status("downloading"), DownloadComplete] + c.1)
  }

  /** A download completes exactly when the body arrives, its checksum is
      the expected one and the rename succeeds; it then ends with `complete`,
      otherwise with its single `error`. */
  lemma CompletesIff(files: map<string, string>, tmp: string, to: string, checksum: string, env: Env)
    ensures var t := Run(files, tmp, to, checksum, env).1;
      && |t| >= 2 && t[0] == Event.Status("downloading")
      && (t[|t| - 1] == Complete <==>
            env.response.Ok? && env.hash(env.response.value) == Ok(checksum) && env.rename.None?)
      && (t[|t| - 1].Error? <==> t[|t| - 1] != Complete)
      && forall i :: 0 <= i < |t| - 1 ==> !t[i].Error? && t[i] != Complete
  {
  }

  /** A completed download leaves the body at the destination and no
      temporary file. */
  lemma CompletedMovesBody(files: map<string, string>, tmp: string, to: string, checksum: string, env: Env)
    requires env.response.Ok? && env.hash(env.response.value) == Ok(checksum) && env.rename.None?
    ensures var f := Run(files, tmp, to, checksum, env).0;
      to in f && f[to] == env.response.value && (tmp != to ==> tmp !in f)
  {
  }

  /** A checksum mismatch keeps the downloaded temporary file and never
      touches the destination. */
  lemma MismatchKeepsTemp(files: map<string, string>, tmp: string, to: string, checksum: string, env: Env)
    requires env.response.Ok? && env.hash(env.response.value) != Ok(checksum)
    ensures var r := Run(files, tmp, to, checksum, env);
      && r.0 == files[tmp := env.response.value]
      && MoveStarted !in r.1 && Complete !in r.1
  {
  }

  class Download {
    const folder: Folder
    const from: string
    const tmp: string
    const to: string
    const checksum: string
    var trace: seq<Event>

    constructor(folder: Folder, from: string, tmp: string, to: string, checksum: string)
      ensures this.folder == folder && this.from == from && this.tmp == tmp && this.to == to
      ensures this.checksum == checksum && trace == []
    {
      this.folder := folder;
      this.from := from;
      this.tmp := tmp;
      this.to := to;
      this.checksum := checksum;
      trace := [];
    }

    method Download(env: Env)
      modifies this`trace, folder`files
      ensures var r := Run(old(folder.files), tmp, to, checksum, env);
        folder.files == r.0 && trace == old(trace) + r.1
    {
      var before := folder.files;
      trace := trace + [Event.Status("downloading")];
      folder.files := before[tmp := ""];
      match env.response {
        case Err(e) =>
          if tmp in folder.files {
            folder.files := folder.files - {tmp};
          }
          assert folder.files == before - {tmp};
          trace := trace + [Error(e)];
        case Ok(body) =>
          folder.files := folder.files[tmp := body];
          assert folder.files == before[tmp := body];
          trace := trace + [DownloadComplete];
          Check(env);
      }
    }

    method Check(env: Env)
      requires tmp in folder.files
      modifies this`trace, folder`files
      ensures var r := Checked(old(folder.files), tmp, to, checksum, env);
        folder.files == r.0 && trace == old(trace) + r.1
    {
      trace := trace + [CheckStarted];
      var sum := env.hash(folder.files[tmp]);
      if sum.Err? {
        trace := trace + [Error(sum.error)];
        return;
      }
      if checksum != sum.value {
        trace := trace + [Error("Checksum error")];
        return;
      }
      trace := trace + [CheckComplete];
      Move(env);
    }

    method Move(env: Env)
      requires tmp in folder.files
      modifies this`trace, folder`files
      ensures var r := Moved(old(folder.files), tmp, to, env);
        folder.files == r.0 && trace == old(trace) + r.1
    {
      trace := trace + [MoveStarted];
      if env.rename.Some? {
        trace := trace + [Error(env.rename.value)];
        return;
      }
      var body := folder.files[tmp];
      folder.files := (folder.files - {tmp})[to := body];
      trace := trace + [MoveComplete(to), Complete];
    }
  }
}
