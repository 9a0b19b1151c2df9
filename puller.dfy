/** Pulling a remote into a local repository (lib/epm/puller.js): compare
    the fetched manifest with the tracked packages, queue one download per
    new or shared package, and run the downloads one at a time. */
module Puller {
  import opened Wrappers
  import opened Store
  import Builds
  import Paths
  import Downloader
  import Seqs

  /** The elements of `s` that `keep` accepts, in order, repeats kept. */
  function Filter(s: seq<string>, keep: string -> bool): (r: seq<string>)
    ensures forall x :: x in r <==> x in s && keep(x)
    ensures |r| <= |s|
    decreases |s|
  {
    if s == [] then []
    else
      var rest := Filter(s[..|s| - 1], keep);
      assert s == s[..|s| - 1] + [s[|s| - 1]];
      if keep(s[|s| - 1]) then rest + [s[|s| - 1]] else rest
  }

  /** The uid of every manifest entry, in manifest order. */
  function Uids(remote: seq<RemotePkg>): (r: seq<string>)
    ensures |r| == |remote|
  {
    seq(|remote|, i requires 0 <= i < |remote| => remote[i].uid)
  }

  /** `_.object(rkeys, remote)`: each uid to the last entry that carries it. */
  function ByUid(remote: seq<RemotePkg>): (m: map<string, RemotePkg>)
    ensures forall u :: u in m ==> m[u].uid == u
    ensures forall u :: u in m <==> u in Uids(remote)
    decreases |remote|
  {
    if remote == [] then map[]
    else
      var init := remote[..|remote| - 1];
      var last := remote[|remote| - 1];
      assert Uids(remote) == Uids(init) + [last.uid];
      ByUid(init)[last.uid := last]
  }

  function Untracked(local: map<string, PkgRecord>): string -> bool {
    u => u !in local
  }

  function Listed(rkeys: seq<string>): string -> bool {
    u => u in rkeys
  }

  function Outdated(local: map<string, PkgRecord>, remotes: map<string, RemotePkg>): string -> bool {
    u => u in local && u in remotes &&
         Builds.Less(Builds.ParseInt(local[u].build), Builds.ParseInt(remotes[u].build))
  }

  /** `_.difference(rkeys, lkeys)`: manifest uids not tracked locally. */
  function Diff(rkeys: seq<string>, local: map<string, PkgRecord>): seq<string> {
    Filter(rkeys, Untracked(local))
  }

  /** `_.intersection(lkeys, rkeys)` for distinct `lkeys`: tracked uids that
      the manifest also lists, in local order. */
  function Intersect(lkeys: seq<string>, rkeys: seq<string>): seq<string> {
    Filter(lkeys, Listed(rkeys))
  }

  /** The shared uids whose local build parses lower than the remote one. */
  function Updates(shared: seq<string>, local: map<string, PkgRecord>, remotes: map<string, RemotePkg>): seq<string> {
    Filter(shared, Outdated(local, remotes))
  }

  datatype NewPkg = NewPkg(uid: string, checksum: string, build: Builds.BuildField, filename: string)
  datatype OldPkg = OldPkg(uid: string, checksum: string, build: Builds.BuildField, filename: string,
                           localFilename: string)

  /** The `{news, olds}` status that `analize` returns and `jobs` reports. */
  datatype Plan = Plan(news: seq<NewPkg>, olds: seq<OldPkg>)

  function News(uids: seq<string>, remotes: map<string, RemotePkg>): (r: seq<NewPkg>)
    requires forall u :: u in uids ==> u in remotes
    ensures |r| == |uids|
  {
    seq(|uids|, i requires 0 <= i < |uids| =>
      var p := remotes[uids[i]]; NewPkg(uids[i], p.checksum, p.build, p.filename))
  }

  function Olds(uids: seq<string>, remotes: map<string, RemotePkg>, local: map<string, PkgRecord>): (r: seq<OldPkg>)
    requires forall u :: u in uids ==> u in remotes && u in local
    ensures |r| == |uids|
  {
    seq(|uids|, i requires 0 <= i < |uids| =>
      var p := remotes[uids[i]]; OldPkg(uids[i], p.checksum, p.build, p.filename, local[uids[i]].filename))
  }

  /** What `analize` returns: every untracked manifest uid as a new package,
      and every shared uid as an old one, whatever the builds say. */
  function Analysis(local: map<string, PkgRecord>, lkeys: seq<string>, remote: seq<RemotePkg>): Plan
    requires forall k :: k in lkeys <==> k in local
  {
    var rkeys := Uids(remote);
    var remotes := ByUid(remote);
    Plan(News(Diff(rkeys, local), remotes), Olds(Intersect(lkeys, rkeys), remotes, local))
  }

  /** `Object.keys` lists each key of the map once. */
  ghost predicate KeysOf(lkeys: seq<string>, local: map<string, PkgRecord>) {
    && (forall k :: k in lkeys <==> k in local)
    && (forall i, j :: 0 <= i < j < |lkeys| ==> lkeys[i] != lkeys[j])
  }

  /** A filtering loop, as each `forEach`/`_.difference`/`_.intersection` runs it. */
  method Select(s: seq<string>, keep: string -> bool) returns (r: seq<string>)
    ensures r == Filter(s, keep)
  {
    r := [];
    for i := 0 to |s|
      invariant r == Filter(s[..i], keep)
    {
      assert s[..i + 1][..i] == s[..i];
      if keep(s[i]) {
        r := r + [s[i]];
      }
    }
    assert s[..|s|] == s;
  }

  /** `rkeys` and `remotes := _.object(rkeys, remote)`. */
  method Index(remote: seq<RemotePkg>) returns (rkeys: seq<string>, remotes: map<string, RemotePkg>)
    ensures rkeys == Uids(remote) && remotes == ByUid(remote)
  {
    rkeys := [];
    remotes := map[];
    for i := 0 to |remote|
      invariant rkeys == Uids(remote[..i]) && remotes == ByUid(remote[..i])
    {
      assert remote[..i + 1][..i] == remote[..i];
      rkeys := rkeys + [remote[i].uid];
      remotes := remotes[remote[i].uid := remote[i]];
    }
    assert remote[..|remote|] == remote;
  }

  /** `analize(local, remote)`: also returns the `updates` list it computes
      and then never uses. */
  method Analize(local: map<string, PkgRecord>, lkeys: seq<string>, remote: seq<RemotePkg>)
    returns (plan: Plan, updates: seq<string>)
    requires KeysOf(lkeys, local)
    ensures plan == Analysis(local, lkeys, remote)
    ensures updates == Updates(Intersect(lkeys, Uids(remote)), local, ByUid(remote))
  {
    var rkeys, remotes := Index(remote);
    var diff := Select(rkeys, Untracked(local));
    var intersect := Select(lkeys, Listed(rkeys));
    updates := Select(intersect, Outdated(local, remotes));
    var news := Announced(diff, remotes);
    var olds := Kept(intersect, remotes, local);
    plan := Plan(news, olds);
  }

  /** The `news.push` loop. */
  method Announced(diff: seq<string>, remotes: map<string, RemotePkg>) returns (news: seq<NewPkg>)
    requires forall u :: u in diff ==> u in remotes
    ensures news == News(diff, remotes)
  {
    news := [];
    for i := 0 to |diff|
      invariant news == News(diff[..i], remotes)
    {
      var p := remotes[diff[i]];
      assert News(diff[..i + 1], remotes) == News(diff[..i], remotes) + [NewPkg(diff[i], p.checksum, p.build, p.filename)];
      news := news + [NewPkg(diff[i], p.checksum, p.build, p.filename)];
    }
    assert diff[..|diff|] == diff;
  }

  /** The `olds.push` loop. */
  method Kept(shared: seq<string>, remotes: map<string, RemotePkg>, local: map<string, PkgRecord>)
    returns (olds: seq<OldPkg>)
    requires forall u :: u in shared ==> u in remotes && u in local
    ensures olds == Olds(shared, remotes, local)
  {
    olds := [];
    for i := 0 to |shared|
      invariant olds == Olds(shared[..i], remotes, local)
    {
      var p := remotes[shared[i]];
      var o := OldPkg(shared[i], p.checksum, p.build, p.filename, local[shared[i]].filename);
      assert Olds(shared[..i + 1], remotes, local) == Olds(shared[..i], remotes, local) + [o];
      olds := olds + [o];
    }
    assert shared[..|shared|] == shared;
  }

  /** The last manifest entry for a uid is the one `_.object` keeps. */
  lemma {:induction false} ByUidKeepsLast(remote: seq<RemotePkg>, i: int)
    requires 0 <= i < |remote|
    requires forall j :: i < j < |remote| ==> remote[j].uid != remote[i].uid
    ensures remote[i].uid in ByUid(remote) && ByUid(remote)[remote[i].uid] == remote[i]
    decreases |remote|
  {
    if i < |remote| - 1 {
      ByUidKeepsLast(remote[..|remote| - 1], i);
    }
  }

  /** `news` are exactly the manifest uids not tracked locally, each with the
      manifest's fields; `olds` are exactly the uids on both sides, each
      carrying the local file name. */
  lemma AnalysisSides(local: map<string, PkgRecord>, lkeys: seq<string>, remote: seq<RemotePkg>)
    requires KeysOf(lkeys, local)
    ensures var plan := Analysis(local, lkeys, remote);
      && (forall u :: (exists p :: p in plan.news && p.uid == u) <==> u in Uids(remote) && u !in local)
      && (forall u :: (exists p :: p in plan.olds && p.uid == u) <==> u in Uids(remote) && u in local)
      && (forall p :: p in plan.news ==> p.checksum == ByUid(remote)[p.uid].checksum)
      && (forall p :: p in plan.olds ==> p.localFilename == local[p.uid].filename)
  {
    var plan := Analysis(local, lkeys, remote);
    var d := Diff(Uids(remote), local);
    var s := Intersect(lkeys, Uids(remote));
    forall u | u in Uids(remote) && u !in local
      ensures exists p :: p in plan.news && p.uid == u
    {
      var i :| 0 <= i < |d| && d[i] == u;
      assert plan.news[i].uid == u;
    }
    forall u | u in Uids(remote) && u in local
      ensures exists p :: p in plan.olds && p.uid == u
    {
      var i :| 0 <= i < |s| && s[i] == u;
      assert plan.olds[i].uid == u;
    }
    forall p | p in plan.news
      ensures p.uid in Uids(remote) && p.uid !in local
    {
      var i :| 0 <= i < |plan.news| && plan.news[i] == p;
      assert d[i] in d;
    }
    forall p | p in plan.olds
      ensures p.uid in Uids(remote) && p.uid in local
    {
      var i :| 0 <= i < |plan.olds| && plan.olds[i] == p;
      assert s[i] in s;
    }
  }

  /** Every build-based update is among `olds`, but `olds` also holds
      packages whose local build is already current. */
  lemma UpdatesAmongOlds(local: map<string, PkgRecord>, lkeys: seq<string>, remote: seq<RemotePkg>)
    requires KeysOf(lkeys, local)
    ensures var s := Intersect(lkeys, Uids(remote));
      forall u :: u in Updates(s, local, ByUid(remote)) ==> u in s
  {
  }

  /** A package tracked with the same build as the manifest is still
      downloaded again. */
  lemma CurrentPackageRedownloaded()
    ensures var local := map["u" := PkgRecord(Builds.NumBuild(2), "u.zip")];
      var remote := [RemotePkg("u", Builds.NumBuild(2), "c", "u.zip")];
      && Updates(Intersect(["u"], Uids(remote)), local, ByUid(remote)) == []
      && Analysis(local, ["u"], remote).olds == [OldPkg("u", "c", Builds.NumBuild(2), "u.zip", "u.zip")]
  {
    var local := map["u" := PkgRecord(Builds.NumBuild(2), "u.zip")];
    var remote := [RemotePkg("u", Builds.NumBuild(2), "c", "u.zip")];
    assert Uids(remote) == ["u"];
    assert Intersect(["u"], ["u"]) == ["u"] by {
      assert ["u"][..0] == [];
    }
  }

  /** One download: source, temporary file, destination and expected sum. */
  datatype Job = Job(from: string, tmp: string, to: string, checksum: string)

  /** A new package lands as `uid` plus the remote file's extension. */
  function CloneJob(url: string, tmpFolder: string, root: string, p: NewPkg): Job {
    Job(url + "?file=" + p.uid, Paths.Join([tmpFolder, p.uid + ".down"]),
        Paths.Join([root, p.uid + Paths.Extname(p.filename)]), p.checksum)
  }

  /** A shared package overwrites the local file. */
  function UpdateJob(url: string, tmpFolder: string, root: string, p: OldPkg): Job {
    Job(url + "?file=" + p.uid, Paths.Join([tmpFolder, p.uid + ".down"]),
        Paths.Join([root, p.localFilename]), p.checksum)
  }

  function CloneOf(url: string, tmpFolder: string, root: string): NewPkg -> Job {
    p => CloneJob(url, tmpFolder, root, p)
  }

  function UpdateOf(url: string, tmpFolder: string, root: string): OldPkg -> Job {
    p => UpdateJob(url, tmpFolder, root, p)
  }

  /** One clone job per new package, in order. */
  function Clones(url: string, tmpFolder: string, root: string, news: seq<NewPkg>): (js: seq<Job>)
    ensures |js| == |news|
    ensures forall i :: 0 <= i < |news| ==> js[i] == CloneJob(url, tmpFolder, root, news[i])
  {
    Seqs.Map(CloneOf(url, tmpFolder, root), news)
  }

  lemma ClonesGrow(url: string, tmpFolder: string, root: string, news: seq<NewPkg>, i: int)
    requires 0 <= i < |news|
    ensures Clones(url, tmpFolder, root, news[..i + 1]) ==
            Clones(url, tmpFolder, root, news[..i]) + [CloneJob(url, tmpFolder, root, news[i])]
  {
    Seqs.MapGrow(CloneOf(url, tmpFolder, root), news, i);
  }

  /** One update job per old package, in order. */
  function Refreshes(url: string, tmpFolder: string, root: string, olds: seq<OldPkg>): (js: seq<Job>)
    ensures |js| == |olds|
    ensures forall i :: 0 <= i < |olds| ==> js[i] == UpdateJob(url, tmpFolder, root, olds[i])
  {
    Seqs.Map(UpdateOf(url, tmpFolder, root), olds)
  }

  lemma RefreshesGrow(url: string, tmpFolder: string, root: string, olds: seq<OldPkg>, i: int)
    requires 0 <= i < |olds|
    ensures Refreshes(url, tmpFolder, root, olds[..i + 1]) ==
            Refreshes(url, tmpFolder, root, olds[..i]) + [UpdateJob(url, tmpFolder, root, olds[i])]
  {
    Seqs.MapGrow(UpdateOf(url, tmpFolder, root), olds, i);
  }

  /** The jobs `retrieve` enqueues: every clone before every update. */
  function Jobs(url: string, tmpFolder: string, root: string, plan: Plan): (js: seq<Job>)
    ensures |js| == |plan.news| + |plan.olds|
  {
    Clones(url, tmpFolder, root, plan.news) + Refreshes(url, tmpFolder, root, plan.olds)
  }

  /** A job's temporary file is `uid.down` in the temporary folder. */
  lemma TempPath(tmpFolder: string, uid: string)
    requires tmpFolder != [] && uid != [] && '/' !in uid
    ensures Paths.Basename(Paths.Join([tmpFolder, uid + ".down"])) == uid + ".down"
  {
    assert "." + "down" == ".down";
    assert uid + ".down" == uid + "." + "down";
    JoinedFile(tmpFolder, uid, "down");
  }

  /** A clone of `dir/stem.ext` is downloaded to `tmp/uid.down` and lands in
      the repository as `uid.ext`, keeping the remote file's extension. */
  lemma ClonePaths(url: string, tmpFolder: string, root: string, p: NewPkg, dir: string, stem: string, ext: string)
    requires tmpFolder != [] && root != []
    requires p.uid != [] && '/' !in p.uid
    requires stem != [] && '/' !in stem && ext != [] && '.' !in ext && '/' !in ext
    requires p.filename == dir + "/" + stem + "." + ext
    ensures var j := CloneJob(url, tmpFolder, root, p);
      && Paths.Basename(j.tmp) == p.uid + ".down"
      && Paths.Basename(j.to) == p.uid + Paths.Extname(p.filename)
      && Paths.Extname(j.to) == Paths.Extname(p.filename)
  {
    TempPath(tmpFolder, p.uid);
    Paths.ExtnameOfFile(dir, stem, ext);
    assert p.uid + Paths.Extname(p.filename) == p.uid + "." + ext;
    JoinedFile(root, p.uid, ext);
  }

  /** The same for a manifest file name with no directory, `stem.ext`. */
  lemma ClonePathsBare(url: string, tmpFolder: string, root: string, p: NewPkg, stem: string, ext: string)
    requires tmpFolder != [] && root != []
    requires p.uid != [] && '/' !in p.uid
    requires stem != [] && '/' !in stem && ext != [] && '.' !in ext && '/' !in ext
    requires p.filename == stem + "." + ext
    ensures var j := CloneJob(url, tmpFolder, root, p);
      && Paths.Basename(j.tmp) == p.uid + ".down"
      && Paths.Basename(j.to) == p.uid + Paths.Extname(p.filename)
      && Paths.Extname(j.to) == Paths.Extname(p.filename)
  {
    TempPath(tmpFolder, p.uid);
    var e := Paths.Extname(p.filename);
    assert e == "." + ext by {
      Paths.ExtnameOfBareFile(stem, ext);
    }
    var to := Paths.Join([root, p.uid + "." + ext]);
    assert CloneJob(url, tmpFolder, root, p).to == to by {
      assert p.uid + e == p.uid + "." + ext;
    }
    JoinedFile(root, p.uid, ext);
  }

  /** `path.join(dir, stem + "." + ext)` names the file `stem.ext`. */
  lemma JoinedFile(dir: string, stem: string, ext: string)
    requires dir != [] && stem != [] && '/' !in stem && ext != [] && '.' !in ext && '/' !in ext
    ensures Paths.Basename(Paths.Join([dir, stem + "." + ext])) == stem + "." + ext
    ensures Paths.Extname(Paths.Join([dir, stem + "." + ext])) == "." + ext
  {
    Paths.JoinUnderRoot(dir, [stem + "." + ext]);
    assert dir + "/" + (stem + "." + ext) == dir + "/" + stem + "." + ext;
    Paths.ExtnameOfFile(dir, stem, ext);
  }

  /** Whether a downloader's events include `complete`. */
  predicate Completed(evs: seq<Downloader.Event>) {
    Downloader.Complete in evs
  }

  /** Running the queue from an idle worker: downloads in order until one
      fails; gives the files, the jobs still queued and whether the worker
      is left marked busy. */
  function Drain(files: map<string, string>, jobs: seq<Job>, env: Job -> Downloader.Env)
    : (map<string, string>, seq<Job>, bool)
    decreases |jobs|
  {
    if jobs == [] then (files, [], false)
    else
      var j := jobs[0];
      var r := Downloader.Run(files, j.tmp, j.to, j.checksum, env(j));
      if Completed(r.1) then Drain(r.0, jobs[1..], env) else (r.0, jobs[1..], true)
  }

  /** The queue only ever loses its head: it either empties, or stops right
      after the first failed download with the worker still busy. */
  lemma {:induction false} DrainShape(files: map<string, string>, jobs: seq<Job>, env: Job -> Downloader.Env)
    ensures var d := Drain(files, jobs, env);
      && |d.1| <= |jobs| && d.1 == jobs[|jobs| - |d.1|..]
      && (d.1 != [] ==> d.2)
      && (!d.2 ==> d.1 == [])
    decreases |jobs|
  {
    if jobs != [] {
      var j := jobs[0];
      var r := Downloader.Run(files, j.tmp, j.to, j.checksum, env(j));
      if Completed(r.1) {
        DrainShape(r.0, jobs[1..], env);
        assert jobs[1..][|jobs[1..]| - |Drain(r.0, jobs[1..], env).1|..] == jobs[|jobs| - |Drain(r.0, jobs[1..], env).1|..];
      }
    }
  }

  /** The signals a puller emits that the model follows. */
  datatype Signal = JobsPlanned(plan: Plan) | QueueComplete

  class EpmPuller {
    const folder: Folder
    const url: string
    const tmpFolder: string
    const root: string
    var queue: seq<Job>
    var isProcessing: bool
    var trace: seq<Signal>

    constructor(folder: Folder, url: string, tmpFolder: string, root: string)
      ensures this.folder == folder && this.url == url && this.tmpFolder == tmpFolder && this.root == root
      ensures queue == [] && !isProcessing && trace == []
    {
      this.folder := folder;
      this.url := url;
      this.tmpFolder := tmpFolder;
      this.root := root;
      queue := [];
      isProcessing := false;
      trace := [];
    }

    /** `processQueue`: complete when nothing is queued; wait while a
        download runs; otherwise take the head and download it, going on
        with the next only when it completes. */
    method ProcessQueue(env: Job -> Downloader.Env)
      modifies this`queue, this`isProcessing, this`trace, folder`files
      ensures old(queue) == [] ==>
        queue == [] && isProcessing == old(isProcessing) && folder.files == old(folder.files)
        && trace == old(trace) + [QueueComplete]
      ensures old(queue) != [] && old(isProcessing) ==>
        queue == old(queue) && isProcessing && folder.files == old(folder.files) && trace == old(trace)
      ensures old(queue) != [] && !old(isProcessing) ==>
        var d := Drain(old(folder.files), old(queue), env);
        && folder.files == d.0 && queue == d.1 && isProcessing == d.2
        && trace == old(trace) + (if d.2 then [] else [QueueComplete])
      decreases |queue|
    {
      if queue == [] {
        trace := trace + [QueueComplete];
        return;
      }
      if isProcessing {
        return;
      }
      isProcessing := true;
      var job := queue[0];
      queue := queue[1..];
      var d := new Downloader.Download(folder, job.from, job.tmp, job.to, job.checksum);
      d.Download(env(job));
      if Completed(d.trace) {
        isProcessing := false;
        ProcessQueue(env);
      }
    }

    /** `retrieve`, once the manifest is fetched: plan, report the plan,
        enqueue the clone then update jobs, and start the queue. */
    method Retrieve(local: map<string, PkgRecord>, lkeys: seq<string>, remote: seq<RemotePkg>,
                    env: Job -> Downloader.Env)
      requires KeysOf(lkeys, local)
      modifies this`queue, this`isProcessing, this`trace, folder`files
      ensures var plan := Analysis(local, lkeys, remote);
        var all := old(queue) + Jobs(url, tmpFolder, root, plan);
        && (old(isProcessing) ==>
              queue == all && isProcessing && folder.files == old(folder.files)
              && trace == old(trace) + [JobsPlanned(plan)] + (if all == [] then [QueueComplete] else []))
        && (!old(isProcessing) ==>
              var d := Drain(old(folder.files), all, env);
              && folder.files == d.0 && queue == d.1 && isProcessing == d.2
              && trace == old(trace) + [JobsPlanned(plan)] + (if d.2 then [] else [QueueComplete]))
    {
      var plan, _ := Analize(local, lkeys, remote);
      trace := trace + [JobsPlanned(plan)];
      Enqueue(plan);
      ProcessQueue(env);
    }

    /** The two `queue.push` loops of `retrieve`. */
    method Enqueue(plan: Plan)
      modifies this`queue
      ensures queue == old(queue) + Jobs(url, tmpFolder, root, plan)
    {
      EnqueueNews(plan.news);
      EnqueueOlds(plan.olds);
    }

    method EnqueueNews(news: seq<NewPkg>)
      modifies this`queue
      ensures queue == old(queue) + Clones(url, tmpFolder, root, news)
    {
      var q := [];
      for i := 0 to |news|
        invariant q == Clones(url, tmpFolder, root, news[..i]) && queue == old(queue)
      {
        ClonesGrow(url, tmpFolder, root, news, i);
        q := q + [CloneJob(url, tmpFolder, root, news[i])];
      }
      assert news[..|news|] == news;
      queue := queue + q;
    }

    method EnqueueOlds(olds: seq<OldPkg>)
      modifies this`queue
      ensures queue == old(queue) + Refreshes(url, tmpFolder, root, olds)
    {
      for i := 0 to |olds|
        invariant queue == old(queue) + Refreshes(url, tmpFolder, root, olds[..i])
      {
        RefreshesGrow(url, tmpFolder, root, olds, i);
        queue := queue + [UpdateJob(url, tmpFolder, root, olds[i])];
      }
      assert olds[..|olds|] == olds;
    }
  }
}
