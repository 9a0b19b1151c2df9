/** Pulling a remote into a served repository (lib/repo/puller.js): check
    that the remote is known and fetched, plan clones and build updates
    against the local metadata, download every package in series into a
    temporary folder, then rename each download over its package file. */
module RepoPuller {
  import opened Wrappers
  import opened Store
  import Builds
  import Engine
  import Paths
  import Puller

  /** The remote as `pull` hands it on: its record and `remote.packages`,
      the manifest indexed by uid with the last entry winning. */
  datatype Fetched = Fetched(remote: Remote, packages: map<string, RemotePkg>)

  /** The remote checks of `pull`: the remote must be registered and its
      manifest cached. */
  function CheckRemote(remotes: map<string, Remote>, manifests: map<string, seq<RemotePkg>>, name: string)
    : (r: Result<Fetched, string>)
    ensures name !in remotes ==> r == Err("Unknown remote `" + name + "`")
    ensures name in remotes && name !in manifests ==> r == Err("The remote `" + name + "` has not been fetched")
    ensures r.Ok? <==> name in remotes && name in manifests
    ensures r.Ok? ==> r.value.remote == remotes[name]
    ensures r.Ok? ==> forall u :: u in r.value.packages <==> u in Puller.Uids(manifests[name])
  {
    if name !in remotes then Err("Unknown remote `" + name + "`")
    else if name !in manifests then Err("The remote `" + name + "` has not been fetched")
    else Ok(Fetched(remotes[name], Puller.ByUid(manifests[name])))
  }

  /** `data[p.uid] = p` over the local metadata: the last record per uid. */
  function ByUid(metadata: seq<Engine.Meta>): (m: map<string, Engine.Meta>)
    ensures forall u :: u in m ==> m[u].uid == u
    decreases |metadata|
  {
    if metadata == [] then map[]
    else
      var last := metadata[|metadata| - 1];
      ByUid(metadata[..|metadata| - 1])[last.uid := last]
  }

  /** `Object.keys` lists each key of the map once. */
  ghost predicate KeysOf<V>(order: seq<string>, m: map<string, V>) {
    && (forall k :: k in order <==> k in m)
    && (forall i, j :: 0 <= i < j < |order| ==> order[i] != order[j])
  }

  function Untracked(data: map<string, Engine.Meta>): string -> bool {
    u => u !in data
  }

  function Listed(remotes: seq<string>): string -> bool {
    u => u in remotes
  }

  function Outdated(data: map<string, Engine.Meta>, packages: map<string, RemotePkg>): string -> bool {
    u => u in data && u in packages &&
         Builds.Less(Builds.ParseInt(data[u].build), Builds.ParseInt(packages[u].build))
  }

  /** The `{clone, update}` jobs of `__pull`. */
  datatype Plan = Plan(clone: seq<string>, update: seq<string>)

  /** Clones are the remote uids with no local metadata, in remote order;
      updates are the shared uids whose local build parses lower, in local
      order. */
  function Planned(data: map<string, Engine.Meta>, locals: seq<string>,
                   packages: map<string, RemotePkg>, remotes: seq<string>): Plan
  {
    var shared := Puller.Filter(locals, Listed(remotes));
    Plan(Puller.Filter(remotes, Untracked(data)), Puller.Filter(shared, Outdated(data, packages)))
  }

  /** The `data[p.uid] = p` loop. */
  method Index(metadata: seq<Engine.Meta>) returns (data: map<string, Engine.Meta>)
    ensures data == ByUid(metadata)
  {
    data := map[];
    for i := 0 to |metadata|
      invariant data == ByUid(metadata[..i])
    {
      assert metadata[..i + 1][..i] == metadata[..i];
      data := data[metadata[i].uid := metadata[i]];
    }
    assert metadata[..|metadata|] == metadata;
  }

  /** `__pull`, given the local metadata list and the key orders of the two
      indexes. */
  method PlanPull(metadata: seq<Engine.Meta>, locals: seq<string>,
                  packages: map<string, RemotePkg>, remotes: seq<string>) returns (plan: Plan)
    requires KeysOf(locals, ByUid(metadata)) && KeysOf(remotes, packages)
    ensures plan == Planned(ByUid(metadata), locals, packages, remotes)
  {
    var data := Index(metadata);
    var diff := Puller.Select(remotes, Untracked(data));
    var intersect := Puller.Select(locals, Listed(remotes));
    var updates := Puller.Select(intersect, Outdated(data, packages));
    plan := Plan(diff, updates);
  }

  /** A uid is cloned exactly when the remote lists it and no local metadata
      carries it, and updated exactly when both sides carry it and the local
      build parses strictly lower; the two never overlap. */
  lemma PlanSides(data: map<string, Engine.Meta>, locals: seq<string>,
                  packages: map<string, RemotePkg>, remotes: seq<string>)
    requires KeysOf(locals, data) && KeysOf(remotes, packages)
    ensures var p := Planned(data, locals, packages, remotes);
      && (forall u :: u in p.clone <==> u in packages && u !in data)
      && (forall u :: u in p.update <==>
            u in packages && u in data && Builds.Less(Builds.ParseInt(data[u].build), Builds.ParseInt(packages[u].build)))
      && (forall u :: !(u in p.clone && u in p.update))
  {
  }

  /** A tracked package whose build cannot be parsed is never updated. */
  lemma UnparsableNeverUpdated(data: map<string, Engine.Meta>, locals: seq<string>,
                               packages: map<string, RemotePkg>, remotes: seq<string>, u: string)
    requires KeysOf(locals, data) && KeysOf(remotes, packages)
    requires u in data && Builds.ParseInt(data[u].build) == Builds.NaN
    ensures u !in Planned(data, locals, packages, remotes).update
  {
    PlanSides(data, locals, packages, remotes);
  }

  datatype TransferKind = Clone | Update

  /** One entry of `objs`: download `from` into `to`, later renamed over `replace`. */
  datatype Transfer = Transfer(kind: TransferKind, uid: string, from: string, to: string, replace: string)

  function TransferOf(kind: TransferKind, url: string, tmpFolder: string, root: string, uid: string): Transfer {
    Transfer(kind, uid, url + "?file=" + uid, Paths.Join([tmpFolder, uid + ".down"]), Paths.Join([root, uid + ".zip"]))
  }

  function Transfers(kind: TransferKind, url: string, tmpFolder: string, root: string, uids: seq<string>)
    : (ts: seq<Transfer>)
    ensures |ts| == |uids|
    ensures forall i :: 0 <= i < |uids| ==> ts[i] == TransferOf(kind, url, tmpFolder, root, uids[i])
    decreases |uids|
  {
    if uids == [] then []
    else Transfers(kind, url, tmpFolder, root, uids[..|uids| - 1]) + [TransferOf(kind, url, tmpFolder, root, uids[|uids| - 1])]
  }

  /** `objs` in `__down`: every clone, then every update. */
  function Objs(url: string, tmpFolder: string, root: string, plan: Plan): (os: seq<Transfer>)
    ensures |os| == |plan.clone| + |plan.update|
  {
    Transfers(Clone, url, tmpFolder, root, plan.clone) + Transfers(Update, url, tmpFolder, root, plan.update)
  }

  /** Updates replace `uid.zip` like clones do, whatever the package's
      current file is called. */
  lemma UpdatesReplaceZip(url: string, tmpFolder: string, root: string, plan: Plan, i: int)
    requires 0 <= i < |plan.update|
    ensures var o := Objs(url, tmpFolder, root, plan)[|plan.clone| + i];
      o.kind == Update && o.uid == plan.update[i] && o.replace == Paths.Join([root, plan.update[i] + ".zip"])
  {
  }

  /** The `objs.push` loop for one kind. */
  method Push(kind: TransferKind, url: string, tmpFolder: string, root: string, uids: seq<string>)
    returns (ts: seq<Transfer>)
    ensures ts == Transfers(kind, url, tmpFolder, root, uids)
  {
    ts := [];
    for i := 0 to |uids|
      invariant ts == Transfers(kind, url, tmpFolder, root, uids[..i])
    {
      assert uids[..i + 1][..i] == uids[..i];
      ts := ts + [TransferOf(kind, url, tmpFolder, root, uids[i])];
    }
    assert uids[..|uids|] == uids;
  }

  /** `__downfile`: the write stream creates `to`; a request error removes
      it again, otherwise it holds the body. */
  function DownFile(files: map<string, string>, t: Transfer, fetch: string -> Result<string, string>)
    : (r: (map<string, string>, Option<string>))
    ensures r.1.Some? <==> fetch(t.from).Err?
    ensures r.1.Some? ==> r.1.value == fetch(t.from).error && t.to !in r.0
    ensures r.1.None? ==> t.to in r.0 && r.0[t.to] == fetch(t.from).value
    ensures forall p :: p != t.to ==> (p in r.0 <==> p in files) && (p in files ==> r.0[p] == files[p])
  {
    match fetch(t.from)
    case Err(e) => (files[t.to := ""] - {t.to}, Some(e))
    case Ok(body) => (files[t.to := body], None)
  }

  /** `async.series` over the downloads: one at a time, stopping at the
      first error. */
  function Series(files: map<string, string>, ts: seq<Transfer>, fetch: string -> Result<string, string>)
    : (map<string, string>, Result<seq<Transfer>, string>)
    decreases |ts|
  {
    if ts == [] then (files, Ok([]))
    else
      var d := DownFile(files, ts[0], fetch);
      if d.1.Some? then (d.0, Err(d.1.value))
      else
        var rest := Series(d.0, ts[1..], fetch);
        (rest.0, if rest.1.Ok? then Ok([ts[0]] + rest.1.value) else rest.1)
  }

  /** The series succeeds, with every transfer as its results, exactly when
      every download succeeds; otherwise it fails with the first error. */
  lemma {:induction false} SeriesOutcome(files: map<string, string>, ts: seq<Transfer>, fetch: string -> Result<string, string>)
    ensures var r := Series(files, ts, fetch).1;
      && (r.Ok? <==> forall i :: 0 <= i < |ts| ==> fetch(ts[i].from).Ok?)
      && (r.Ok? ==> r.value == ts)
      && (r.Err? ==> exists i :: 0 <= i < |ts| && fetch(ts[i].from) == Err(r.error)
                       && forall j :: 0 <= j < i ==> fetch(ts[j].from).Ok?)
    decreases |ts|
  {
    if ts != [] {
      var d := DownFile(files, ts[0], fetch);
      if d.1.None? {
        SeriesOutcome(d.0, ts[1..], fetch);
        var r := Series(d.0, ts[1..], fetch).1;
        if r.Err? {
          var i :| 0 <= i < |ts[1..]| && fetch(ts[1..][i].from) == Err(r.error)
                   && forall j :: 0 <= j < i ==> fetch(ts[1..][j].from).Ok?;
          assert fetch(ts[i + 1].from) == Err(r.error);
          forall j | 0 <= j < i + 1
            ensures fetch(ts[j].from).Ok?
          {
            if j > 0 {
              assert ts[j] == ts[1..][j - 1];
            }
          }
        } else {
          forall i | 0 <= i < |ts|
            ensures fetch(ts[i].from).Ok?
          {
            if i > 0 {
              assert ts[i] == ts[1..][i - 1];
            }
          }
          assert [ts[0]] + ts[1..] == ts;
        }
      } else {
        assert fetch(ts[0].from).Err?;
      }
    }
  }

  /** A series that already completed `done` and then produced `rest`. */
  function Resumed(done: seq<Transfer>, rest: (map<string, string>, Result<seq<Transfer>, string>))
    : (map<string, string>, Result<seq<Transfer>, string>)
  {
    (rest.0, if rest.1.Ok? then Ok(done + rest.1.value) else rest.1)
  }

  /** The `async.series` call of `__down`: one download after another. */
  method DownAll(folder: Folder, ts: seq<Transfer>, fetch: string -> Result<string, string>)
    returns (r: Result<seq<Transfer>, string>)
    modifies folder`files
    ensures (folder.files, r) == Series(old(folder.files), ts, fetch)
  {
    var done: seq<Transfer> := [];
    var i := 0;
    assert ts[0..] == ts;
    assert Series(folder.files, ts, fetch).1.Ok? ==> done + Series(folder.files, ts, fetch).1.value == Series(folder.files, ts, fetch).1.value;
    while i < |ts|
      invariant 0 <= i <= |ts| && done == ts[..i]
      invariant Series(old(folder.files), ts, fetch) == Resumed(done, Series(folder.files, ts[i..], fetch))
    {
      assert ts[i..][1..] == ts[i + 1..];
      var d := DownFile(folder.files, ts[i], fetch);
      ghost var rest := Series(d.0, ts[i + 1..], fetch);
      folder.files := d.0;
      if d.1.Some? {
        r := Err(d.1.value);
        return;
      }
      assert rest.1.Ok? ==> done + ([ts[i]] + rest.1.value) == (done + [ts[i]]) + rest.1.value;
      done := done + [ts[i]];
      i := i + 1;
    }
    assert ts[i..] == [];
    assert done + [] == done;
    r := Ok(done);
  }

  /** `fs.renameSync(from, to)`: fails when `from` does not exist. */
  function Rename(files: map<string, string>, from: string, to: string): (r: Result<map<string, string>, string>)
    ensures r.Ok? <==> from in files
    ensures r.Ok? ==> to in r.value && r.value[to] == files[from] && (from != to ==> from !in r.value)
  {
    if from !in files then Err(from)
    else Ok((files - {from})[to := files[from]])
  }

  /** `__sync` as written: a failed rename calls back with the error and the
      loop goes on; after the loop it calls back with success.  Gives the
      files and every callback argument, `None` for success. */
  function SyncedAsWritten(files: map<string, string>, ts: seq<Transfer>): (map<string, string>, seq<Option<string>>)
    decreases |ts|
  {
    if ts == [] then (files, [None])
    else
      match Rename(files, ts[0].to, ts[0].replace)
      case Err(e) =>
        var rest := SyncedAsWritten(files, ts[1..]);
        (rest.0, [Some(e)] + rest.1)
      case Ok(f) => SyncedAsWritten(f, ts[1..])
  }

  /** `__sync` as evidently intended: stop at the first failed rename and
      call back once, with it. */
  function Synced(files: map<string, string>, ts: seq<Transfer>): (map<string, string>, Result<(), string>)
    decreases |ts|
  {
    if ts == [] then (files, Ok(()))
    else
      match Rename(files, ts[0].to, ts[0].replace)
      case Err(e) => (files, Err(e))
      case Ok(f) => Synced(f, ts[1..])
  }

  /** As written the callback always runs last with success, and once more
      before that for every failed rename. */
  lemma {:induction false} SyncAsWrittenCallbacks(files: map<string, string>, ts: seq<Transfer>)
    ensures var cbs := SyncedAsWritten(files, ts).1;
      && |cbs| >= 1 && cbs[|cbs| - 1] == None
      && forall i :: 0 <= i < |cbs| - 1 ==> cbs[i].Some?
    decreases |ts|
  {
    if ts != [] {
      match Rename(files, ts[0].to, ts[0].replace)
      case Err(e) => SyncAsWrittenCallbacks(files, ts[1..]);
      case Ok(f) => SyncAsWrittenCallbacks(f, ts[1..]);
    }
  }

  /** A missing download makes the written `__sync` call back twice: first
      with the error, then with success. */
  lemma SyncCallsBackTwice()
    ensures var t := Transfer(Clone, "u", "r?file=u", "tmp/u.down", "repo/u.zip");
      && SyncedAsWritten(map[], [t]).1 == [Some("tmp/u.down"), None]
      && Synced(map[], [t]).1 == Err("tmp/u.down")
  {
  }

  /** The intended `__sync` fails exactly with the first error the written
      one reports, succeeds exactly when it reports none, and agrees with it
      on the files whenever every rename succeeds. */
  lemma {:induction false} SyncMatchesFirstCallback(files: map<string, string>, ts: seq<Transfer>)
    ensures var w := SyncedAsWritten(files, ts);
      var s := Synced(files, ts);
      && |w.1| >= 1
      && (s.1.Err? <==> w.1[0].Some?)
      && (s.1.Err? ==> w.1[0] == Some(s.1.error))
      && (s.1.Ok? ==> w.1 == [None] && w.0 == s.0)
    decreases |ts|
  {
    SyncAsWrittenCallbacks(files, ts);
    if ts != [] {
      match Rename(files, ts[0].to, ts[0].replace)
      case Err(e) =>
      case Ok(f) => SyncMatchesFirstCallback(f, ts[1..]);
    }
  }

  /** The intended `__sync` loop on the folder. */
  method Sync(folder: Folder, ts: seq<Transfer>) returns (r: Result<(), string>)
    modifies folder`files
    ensures (folder.files, r) == Synced(old(folder.files), ts)
  {
    var i := 0;
    while i < |ts|
      invariant 0 <= i <= |ts|
      invariant Synced(old(folder.files), ts) == Synced(folder.files, ts[i..])
    {
      assert ts[i..][1..] == ts[i + 1..];
      if ts[i].to !in folder.files {
        r := Err(ts[i].to);
        return;
      }
      var body := folder.files[ts[i].to];
      folder.files := (folder.files - {ts[i].to})[ts[i].replace := body];
      i := i + 1;
    }
    r := Ok(());
  }

  /** `pull` with its waterfall steps as evidently intended: fetch, check
      the remote, plan, download in series, rename into place. */
  function Pulled(files: map<string, string>, fetched: Option<string>,
                  remotes: map<string, Remote>, manifests: map<string, seq<RemotePkg>>, name: string,
                  metadata: seq<Engine.Meta>, locals: seq<string>, rorder: seq<string>,
                  tmpFolder: string, root: string, fetch: string -> Result<string, string>)
    : (map<string, string>, Result<(), string>)
  {
    if fetched.Some? then (files, Err(fetched.value))
    else
      match CheckRemote(remotes, manifests, name)
      case Err(e) => (files, Err(e))
      case Ok(f) =>
        var objs := Objs(f.remote.url, tmpFolder, root, Planned(ByUid(metadata), locals, f.packages, rorder));
        var s := Series(files, objs, fetch);
        if s.1.Err? then (s.0, Err(s.1.error))
        else Synced(s.0, objs)
  }

  /** `pull` as written: its second step declares only the callback, so it
      receives the fetched data in that place and calls it. */
  function PullAsWritten(fetched: Option<string>): Js<Result<(), string>> {
    if fetched.Some? then Returned(Err(fetched.value))
    else Threw("fn is not a function")
  }

  /** As written, a successful fetch always ends in a thrown error and no
      package is ever downloaded; the intended pull reaches the remote
      checks instead. */
  lemma PullNeverDownloads(files: map<string, string>,
                           remotes: map<string, Remote>, manifests: map<string, seq<RemotePkg>>, name: string,
                           metadata: seq<Engine.Meta>, locals: seq<string>, rorder: seq<string>,
                           tmpFolder: string, root: string, fetch: string -> Result<string, string>)
    ensures PullAsWritten(None).Threw?
    ensures name !in remotes ==>
      Pulled(files, None, remotes, manifests, name, metadata, locals, rorder, tmpFolder, root, fetch)
        == (files, Err("Unknown remote `" + name + "`"))
    ensures name in remotes && name !in manifests ==>
      Pulled(files, None, remotes, manifests, name, metadata, locals, rorder, tmpFolder, root, fetch)
        == (files, Err("The remote `" + name + "` has not been fetched"))
  {
  }

  /** `pull` on the folder, with the intended waterfall.  `fetched` is the
      error of `repo.fetch`, if any; `rorder` is the key order of
      `remote.packages`. */
  method Pull(g: Gateway, folder: Folder, fetched: Option<string>, name: string,
              metadata: seq<Engine.Meta>, locals: seq<string>, rorder: seq<string>,
              tmpFolder: string, root: string, fetch: string -> Result<string, string>)
    returns (r: Result<(), string>)
    requires KeysOf(locals, ByUid(metadata))
    requires name in g.manifests ==> KeysOf(rorder, Puller.ByUid(g.manifests[name]))
    modifies folder`files
    ensures (folder.files, r) ==
      Pulled(old(folder.files), fetched, g.remotes, g.manifests, name, metadata, locals, rorder, tmpFolder, root, fetch)
  {
    if fetched.Some? {
      return Err(fetched.value);
    }
    var checked := CheckRemote(g.remotes, g.manifests, name);
    if checked.Err? {
      return Err(checked.error);
    }
    var plan := PlanPull(metadata, locals, checked.value.packages, rorder);
    var url := checked.value.remote.url;
    var clones := Push(Clone, url, tmpFolder, root, plan.clone);
    var updates := Push(Update, url, tmpFolder, root, plan.update);
    var objs := clones + updates;
    var down := DownAll(folder, objs, fetch);
    if down.Err? {
      return Err(down.error);
    }
    r := Sync(folder, objs);
  }
}
