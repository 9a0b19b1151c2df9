/** A served repository (lib/repo/index.js): its name, path resolution,
    the "did any file change?" test and the cached `load` that runs the
    filer and, when needed, the manager's refresh. */
module Repo {
  import opened Wrappers
  import opened Store
  import Builds
  import Engine
  import Paths
  import Filer
  import Manager

  /** `filesChange` as written: its checksum test compares an entry of the
      previous snapshot with itself. */
  predicate FilesChangeAsWritten(last: Option<map<string, Entry>>, cur: map<string, Entry>) {
    || last.None?
    || |last.value.Keys| != |cur.Keys|
    || exists f :: f in last.value && (f !in cur || last.value[f].checksum != last.value[f].checksum)
  }

  /** `filesChange` as intended: the recorded checksums of the two
      snapshots are compared. */
  predicate FilesChange(last: Option<map<string, Entry>>, cur: map<string, Entry>) {
    || last.None?
    || |last.value.Keys| != |cur.Keys|
    || exists f :: f in last.value && (f !in cur || cur[f].checksum != last.value[f].checksum)
  }

  /** As written, only a missing snapshot, a different name count or a
      vanished name counts as a change: checksums are never looked at. */
  lemma AsWrittenIgnoresChecksums(last: map<string, Entry>, cur: map<string, Entry>)
    ensures FilesChangeAsWritten(Some(last), cur) <==>
      |last.Keys| != |cur.Keys| || exists f :: f in last && f !in cur
  {
  }

  /** A file whose recorded checksum differs between the two snapshots is
      a change for the intended test but not for the code as written. */
  lemma ChecksumChangeMissed()
    ensures var last := map["a.zip" := Entry(Some(Stats(1, 10)), 0, Some("x"))];
      var cur := map["a.zip" := Entry(Some(Stats(1, 10)), 0, Some("y"))];
      !FilesChangeAsWritten(Some(last), cur) && FilesChange(Some(last), cur)
  {
    var last := map["a.zip" := Entry(Some(Stats(1, 10)), 0, Some("x"))];
    var cur := map["a.zip" := Entry(Some(Stats(1, 10)), 0, Some("y"))];
    assert last.Keys == cur.Keys;
    assert !FilesChangeAsWritten(Some(last), cur);
  }

  /** No change means: a previous snapshot exists, with exactly the same
      names and the same recorded checksums. */
  lemma NoChangeMeansSameSnapshot(last: Option<map<string, Entry>>, cur: map<string, Entry>)
    requires !FilesChange(last, cur)
    ensures last.Some? && last.value.Keys == cur.Keys
    ensures forall f :: f in cur ==> cur[f].checksum == last.value[f].checksum
  {
    var l := last.value.Keys;
    assert l <= cur.Keys;
    var extra := cur.Keys - l;
    assert cur.Keys == l + extra;
    assert |cur.Keys| == |l| + |extra|;
  }

  /** `_.some(...)` negated: every tracked package's file is a ledger key. */
  predicate AllTracked(p: Packages, files: map<string, Entry>) {
    forall u :: u in p.packages ==> p.packages[u].filename in files
  }

  /** Where the metadata of a listed package comes from: attached by this
      pass, or read from `data-folder/<uid>` on demand. */
  datatype MetaSource = Attached(meta: Engine.Meta) | OnDemand(uid: string)

  /** One entry of `packages()`. */
  datatype Listing = Listing(uid: string, filename: string, build: Builds.BuildField, meta: MetaSource)

  function ListingOf(t: Manager.Tracked): Listing {
    Listing(t.uid, t.filename, t.build, if t.meta.Some? then Attached(t.meta.value) else OnDemand(t.uid))
  }

  /** The configured name wins when `.epm` exists, else `ops.name || "main"`. */
  function ChooseName(opsName: Option<string>, configured: Option<Option<string>>): (n: Option<string>)
    ensures configured.Some? ==> n == configured.value
    ensures configured.None? && (opsName.None? || opsName.value == "") ==> n == Some("main")
    ensures configured.None? && opsName.Some? && opsName.value != "" ==> n == opsName
  {
    if configured.Some? then configured.value
    else if opsName.None? || opsName.value == "" then Some("main")
    else opsName
  }

  class EpmRepo {
    var name: Option<string>
    const path: string
    const file: Gateway
    var lastFiles: Option<map<string, Entry>>
    var lastPkgs: Option<Manager.Report>

    /** A snapshot is only remembered together with the packages it produced. */
    predicate Valid()
      reads this
    {
      lastFiles.Some? ==> lastPkgs.Some?
    }

    /** `configured` is the `name` of the `.epm` config file, when that
        folder exists. */
    constructor(dir: string, file: Gateway, opsName: Option<string>, configured: Option<Option<string>>)
      ensures Valid()
      ensures name == ChooseName(opsName, configured)
      ensures path == dir && this.file == file && lastFiles.None? && lastPkgs.None?
    {
      name := if opsName.None? || opsName.value == "" then Some("main") else opsName;
      path := dir;
      this.file := file;
      lastFiles := None;
      lastPkgs := None;
      if configured.Some? {
        name := configured.value;
      }
    }

    /** `resolve(a, b, ...)`: the parts joined under the repository path. */
    function Resolve(parts: seq<string>): (p: string)
      reads this
      ensures path != [] && Paths.Join(parts) != [] ==> p == path + "/" + Paths.Join(parts)
    {
      var p := Paths.Join([path] + parts);
      if path != [] && Paths.Join(parts) != [] then Paths.JoinUnderRoot(path, parts); p else p
    }

    /** Whether `load` answers from its cache for this ledger. */
    predicate UsesCache(files: map<string, Entry>)
      reads this, file
    {
      !FilesChange(lastFiles, files) && AllTracked(file.pkgs, files)
    }

    /** `load`: run the filer; answer from the cache when no file changed
        and every package's file is still there; otherwise refresh and
        remember the ledger and the result.  `keys` is the enumeration
        order of a ledger's names. */
    method Load(disk: map<string, DiskFile>, hash: string -> Option<string>,
                keys: map<string, Entry> -> seq<string>, read: string -> Option<Engine.Meta>)
      returns (r: Result<Manager.Report, string>)
      requires Valid()
      requires forall m :: Manager.KeysOf(keys(m), m)
      modifies this`lastFiles, this`lastPkgs, file`ledger, file`pkgs, file`tags, file`data, file`writes
      ensures Valid()
      ensures r.Err? <==> !Filer.AllRecorded(old(file.ledger), disk, Engine.MatchesFilePattern, hash)
      ensures r.Err? ==> unchanged(this) && unchanged(file)
      ensures r.Ok? ==> lastPkgs == Some(r.value)
      ensures r.Ok? ==>
        var files := Filer.NewLedger(old(file.ledger), disk, Engine.MatchesFilePattern, hash);
        && file.ledger == files
        && (old(UsesCache(files)) ==>
              && r.value == old(lastPkgs).value
              && lastFiles == old(lastFiles) && lastPkgs == old(lastPkgs)
              && file.writes == old(file.writes) + [FilesDoc]
              && file.pkgs == old(file.pkgs) && file.tags == old(file.tags) && file.data == old(file.data))
        && (!old(UsesCache(files)) ==>
              var os := Manager.Outcomes(Manager.ToProcess(old(file.pkgs), files, keys(files)), path, read);
              var before := old(file.Docs()).(writes := old(file.writes) + [FilesDoc]);
              && file.Docs() == Manager.Refreshed(before, files, os)
              && r.value == Manager.ReportOf(file.pkgs, files, os)
              && lastFiles == Some(files) && lastPkgs == Some(r.value))
    {
      var loaded := Filer.Load(file, disk, Engine.MatchesFilePattern, hash);
      if loaded.Err? {
        return Err(loaded.error);
      }
      var files := loaded.value;
      if !FilesChange(lastFiles, files) {
        if AllTracked(file.pkgs, files) {
          return Ok(lastPkgs.value);
        }
      }
      lastFiles := Some(files);
      var pkgs := Manager.Refresh(file, files, keys(files), path, read);
      lastPkgs := Some(pkgs);
      return Ok(pkgs);
    }

    /** `packages`: the loaded packages by uid, each lacking metadata
        given a reader for `data-folder/<uid>`. */
    method Packages(disk: map<string, DiskFile>, hash: string -> Option<string>,
                    keys: map<string, Entry> -> seq<string>, read: string -> Option<Engine.Meta>)
      returns (r: Result<map<string, Listing>, string>)
      requires Valid()
      requires forall m :: Manager.KeysOf(keys(m), m)
      modifies this`lastFiles, this`lastPkgs, file`ledger, file`pkgs, file`tags, file`data, file`writes
      ensures Valid()
      ensures r.Err? <==> !Filer.AllRecorded(old(file.ledger), disk, Engine.MatchesFilePattern, hash)
      ensures r.Ok? ==> lastPkgs.Some? && r.value.Keys == lastPkgs.value.trackeds.Keys
      ensures r.Ok? ==> forall u :: u in r.value ==> r.value[u] == ListingOf(lastPkgs.value.trackeds[u])
    {
      var loaded := Load(disk, hash, keys, read);
      if loaded.Err? {
        return Err(loaded.error);
      }
      var trackeds := loaded.value.trackeds;
      var res: map<string, Listing> := map[];
      var todo := trackeds.Keys;
      while todo != {}
        invariant todo <= trackeds.Keys
        invariant res.Keys == trackeds.Keys - todo
        invariant forall u :: u in res ==> res[u] == ListingOf(trackeds[u])
        decreases todo
      {
        var u :| u in todo;
        res := res[u := ListingOf(trackeds[u])];
        todo := todo - {u};
      }
      return Ok(res);
    }
  }

  /** The cache only answers when the new ledger names the same files with
      the same checksums as the remembered one and no package lost its file. */
  lemma CacheMeansUnchanged(last: Option<map<string, Entry>>, p: Packages, files: map<string, Entry>)
    requires !FilesChange(last, files) && AllTracked(p, files)
    ensures last.Some? && last.value.Keys == files.Keys
    ensures forall f :: f in files ==> files[f].checksum == last.value[f].checksum
    ensures forall u :: u in p.packages ==> p.packages[u].filename in last.value
  {
    NoChangeMeansSameSnapshot(last, files);
  }
}
