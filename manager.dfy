/** The batch refresh of a served repository (lib/repo/manager.js): given
    the ledger the filer produced, untrack deleted files and packages whose
    file is missing, re-read the added and changed files through the engine
    (`read` maps a resolved path to the parsed metadata, None when the
    archive is corrupted), merge the results into the registry and rebuild
    the tag lists. */
module Manager {
  import opened Wrappers
  import opened Store
  import Builds
  import Engine
  import Paths
  import Seqs

  /** What `proccesFile` hands back for one file. */
  datatype Outcome =
    | Processed(filename: string, uid: string, build: Builds.Num, meta: Engine.Meta)
    | Corrupted(file: string)

  /** `proccesFile`: a corrupted archive is a result flagged `hasError`, not
      a callback error; otherwise the base name, the uid, and the build
      defaulting to 1. */
  function ProcessFile(path: string, read: string -> Option<Engine.Meta>): (o: Outcome)
    ensures o.Corrupted? <==> read(path).None?
    ensures o.Corrupted? ==> o.file == Paths.Basename(path)
    ensures o.Processed? ==> && o.filename == Paths.Basename(path) && o.meta == read(path).value
                             && o.uid == o.meta.uid && o.build == Builds.BuildOrOne(o.meta.build)
  {
    match read(path)
    case None => Corrupted(Paths.Basename(path))
    case Some(meta) => Processed(Paths.Basename(path), meta.uid, Builds.BuildOrOne(meta.build), meta)
  }

  /** `trackeds.files[filename]`, which is the string "undefined" as a
      property key when the name is not tracked. */
  function UidOf(files: map<string, string>, f: string): string {
    if f in files then files[f] else "undefined"
  }

  /** Names the filer reported deleted. */
  function DeletedNames(files: map<string, Entry>): (names: set<string>)
    ensures forall f :: f in names <==> f in files && files[f].code == -1
  {
    set f | f in files && files[f].code == -1
  }

  function DroppedUids(p: Packages, names: set<string>): set<string> {
    set f | f in names :: UidOf(p.files, f)
  }

  /** The deleted-file phase: every deleted name loses its `files` entry and
      its uid loses its package, tags and metadata; the tags file is written
      once when anything was deleted. */
  function AfterDeleted(reg: Registry, files: map<string, Entry>): Registry
  {
    var names := DeletedNames(files);
    var uids := DroppedUids(reg.pkgs, names);
    if names == {} then reg
    else Registry(Packages(reg.pkgs.packages - uids, reg.pkgs.files - names), reg.tags - uids, reg.data - uids,
                  reg.writes + [TagsDoc])
  }

  /** The deleted-file phase: every deleted name loses its `files` entry
      and its uid loses its package, tags and metadata; nothing else is
      touched, and the tags file is written once when anything was deleted. */
  lemma DeletedUntracked(reg: Registry, files: map<string, Entry>)
    ensures forall f :: f in DeletedNames(files) && f in reg.pkgs.files ==>
      var uid := reg.pkgs.files[f];
      uid !in AfterDeleted(reg, files).pkgs.packages && uid !in AfterDeleted(reg, files).tags && uid !in AfterDeleted(reg, files).data && f !in AfterDeleted(reg, files).pkgs.files
    ensures forall f :: f in AfterDeleted(reg, files).pkgs.files <==> f in reg.pkgs.files && f !in DeletedNames(files)
    ensures forall f :: f in AfterDeleted(reg, files).pkgs.files ==> AfterDeleted(reg, files).pkgs.files[f] == reg.pkgs.files[f]
    ensures forall u :: u in AfterDeleted(reg, files).pkgs.packages ==> u in reg.pkgs.packages && AfterDeleted(reg, files).pkgs.packages[u] == reg.pkgs.packages[u]
    ensures forall u :: u in reg.pkgs.packages && u !in DroppedUids(reg.pkgs, DeletedNames(files)) ==> u in AfterDeleted(reg, files).pkgs.packages
    ensures AfterDeleted(reg, files).writes == reg.writes + (if DeletedNames(files) == {} then [] else [TagsDoc])
  {
  }

  /** Packages whose file is not a key of the ledger. */
  function MissingUids(p: Packages, files: map<string, Entry>): (uids: set<string>)
    ensures forall u :: u in uids <==> u in p.packages && p.packages[u].filename !in files
  {
    set u | u in p.packages && p.packages[u].filename !in files
  }

  /** The missing-file phase, with the tag lists read when needed: such a
      package loses its record, tags and metadata, but its `files` entry
      stays. */
  function UntrackMissing(reg: Registry, files: map<string, Entry>): Registry
  {
    var uids := MissingUids(reg.pkgs, files);
    if uids == {} then reg
    else Registry(Packages(reg.pkgs.packages - uids, reg.pkgs.files), reg.tags - uids, reg.data - uids,
                  reg.writes + [TagsDoc])
  }

  /** A package whose file is not a ledger key loses its record, tags and
      metadata; every other package is kept and the `files` map is left as
      it was. */
  lemma MissingUntracked(reg: Registry, files: map<string, Entry>)
    ensures forall u :: u in UntrackMissing(reg, files).pkgs.packages <==> u in reg.pkgs.packages && reg.pkgs.packages[u].filename in files
    ensures forall u :: u in UntrackMissing(reg, files).pkgs.packages ==> UntrackMissing(reg, files).pkgs.packages[u] == reg.pkgs.packages[u]
    ensures forall u :: u in MissingUids(reg.pkgs, files) ==> u !in UntrackMissing(reg, files).tags && u !in UntrackMissing(reg, files).data
    ensures UntrackMissing(reg, files).pkgs.files == reg.pkgs.files
    ensures UntrackMissing(reg, files).writes == reg.writes + (if MissingUids(reg.pkgs, files) == {} then [] else [TagsDoc])
  {
  }

  /** The missing-file phase as written: `tags` was only read in the
      deleted-file phase, so with no deleted file the first `delete tags[uid]`
      is applied to undefined and throws. */
  function UntrackMissingAsWritten(reg: Registry, files: map<string, Entry>, tagsRead: bool): (r: Js<Registry>)
    ensures r.Threw? <==> !tagsRead && MissingUids(reg.pkgs, files) != {}
    ensures r.Returned? ==> r.value == UntrackMissing(reg, files)
  {
    if !tagsRead && MissingUids(reg.pkgs, files) != {} then Threw("Cannot convert undefined or null to object")
    else Returned(UntrackMissing(reg, files))
  }

  /** With no deleted file and one package whose file has gone, the
      refresh as written throws, while the corrected phase untracks it. */
  lemma MissingWithoutDeletedThrows()
    ensures var reg := Registry(Packages(map["u" := PkgRecord(Builds.NumBuild(1), "a.zip")], map["a.zip" := "u"]),
                                map["u" := ["x"]], map[], []);
      var files: map<string, Entry> := map[];
      && DeletedNames(files) == {}
      && UntrackMissingAsWritten(reg, files, DeletedNames(files) != {}).Threw?
      && "u" !in UntrackMissing(reg, files).pkgs.packages && "u" !in UntrackMissing(reg, files).tags
  {
    var reg := Registry(Packages(map["u" := PkgRecord(Builds.NumBuild(1), "a.zip")], map["a.zip" := "u"]),
                        map["u" := ["x"]], map[], []);
    var files: map<string, Entry> := map[];
    assert "u" in MissingUids(reg.pkgs, files);
  }

  /** `has.length !== 0`: some tracked package's file is a ledger key. */
  predicate AnyPresent(p: Packages, files: map<string, Entry>) {
    exists u :: u in p.packages && p.packages[u].filename in files
  }

  predicate Selected(p: Packages, files: map<string, Entry>, t: string) {
    t in files && (!AnyPresent(p, files) || files[t].code == 1 || files[t].code == 2)
  }

  /** `order` is `Object.keys(files)`: every ledger name exactly once. */
  predicate KeysOf(order: seq<string>, files: map<string, Entry>) {
    && (forall t :: t in order ==> t in files)
    && (forall t :: t in files ==> t in order)
    && forall i, j :: 0 <= i < j < |order| ==> order[i] != order[j]
  }

  /** `toProcess`, in ledger key order. */
  function ToProcess(p: Packages, files: map<string, Entry>, order: seq<string>): (r: seq<string>)
    ensures forall t :: t in r <==> t in order && Selected(p, files, t)
    decreases |order|
  {
    if order == [] then []
    else
      var t := order[|order| - 1];
      ToProcess(p, files, order[..|order| - 1]) + (if Selected(p, files, t) then [t] else [])
  }

  /** Once a tracked package's file is still in the ledger, only added and
      changed files are re-read; otherwise every ledger file is. */
  lemma ToProcessChoice(p: Packages, files: map<string, Entry>, order: seq<string>)
    requires forall t :: t in order <==> t in files
    ensures AnyPresent(p, files) ==>
      forall t :: t in ToProcess(p, files, order) <==> t in files && (files[t].code == 1 || files[t].code == 2)
    ensures !AnyPresent(p, files) ==> forall t :: t in ToProcess(p, files, order) <==> t in files
  {
  }

  /** The results of the processing step, in `toProcess` order. */
  function Outcomes(names: seq<string>, root: string, read: string -> Option<Engine.Meta>): (os: seq<Outcome>)
    ensures |os| == |names|
    ensures forall i :: 0 <= i < |names| ==> os[i] == ProcessFile(Paths.Join([root, names[i]]), read)
  {
    seq(|names|, i requires 0 <= i < |names| => ProcessFile(Paths.Join([root, names[i]]), read))
  }

  function Processor(root: string, read: string -> Option<Engine.Meta>): string -> Outcome {
    name => ProcessFile(Paths.Join([root, name]), read)
  }

  lemma OutcomesAsMap(names: seq<string>, root: string, read: string -> Option<Engine.Meta>)
    ensures Seqs.Map(Processor(root, read), names) == Outcomes(names, root, read)
  {
  }

  /** The metadata written by `proccesFile` for each successful result. */
  function Stash(reg: Registry, os: seq<Outcome>): (r: Registry)
    ensures r.pkgs == reg.pkgs && r.tags == reg.tags
    decreases |os|
  {
    if os == [] then reg
    else
      var prior := Stash(reg, os[..|os| - 1]);
      match os[|os| - 1]
      case Corrupted(_) => prior
      case Processed(_, uid, _, meta) => prior.(data := prior.data[uid := meta], writes := prior.writes + [DataDoc(uid)])
  }

  /** Stashing one more result. */
  lemma StashSnoc(reg: Registry, os: seq<Outcome>, o: Outcome)
    ensures var prior := Stash(reg, os);
      Stash(reg, os + [o]) == (if o.Processed? then prior.(data := prior.data[o.uid := o.meta], writes := prior.writes + [DataDoc(o.uid)]) else prior)
  {
    assert (os + [o])[..|os|] == os;
  }

  lemma {:induction false} StashIgnoresPackages(reg: Registry, p: Packages, os: seq<Outcome>)
    ensures Stash(reg.(pkgs := p), os) == Stash(reg, os).(pkgs := p)
    decreases |os|
  {
    if os != [] {
      StashIgnoresPackages(reg, p, os[..|os| - 1]);
    }
  }

  /** One result merged into the registry. */
  function MergeOne(p: Packages, o: Outcome): Packages {
    match o
    case Corrupted(_) => p
    case Processed(filename, uid, build, _) =>
      Packages(p.packages[uid := PkgRecord(Builds.Stored(build), filename)], p.files[filename := uid])
  }

  /** The results merged in order; a later result for the same uid or file wins. */
  function Merge(p: Packages, os: seq<Outcome>): Packages
    decreases |os|
  {
    if os == [] then p else MergeOne(Merge(p, os[..|os| - 1]), os[|os| - 1])
  }

  /** `os[i]` is the last successful result for its uid. */
  predicate LastForUid(os: seq<Outcome>, i: int)
    requires 0 <= i < |os|
  {
    os[i].Processed? && forall j :: i < j < |os| ==> !(os[j].Processed? && os[j].uid == os[i].uid)
  }

  /** `os[i]` is the last successful result for its file. */
  predicate LastForFile(os: seq<Outcome>, i: int)
    requires 0 <= i < |os|
  {
    os[i].Processed? && forall j :: i < j < |os| ==> !(os[j].Processed? && os[j].filename == os[i].filename)
  }

  /** Some successful result carries `uid`. */
  predicate TouchesUid(os: seq<Outcome>, uid: string) {
    exists i :: 0 <= i < |os| && os[i].Processed? && os[i].uid == uid
  }

  /** Some successful result carries `file`. */
  predicate TouchesFile(os: seq<Outcome>, file: string) {
    exists i :: 0 <= i < |os| && os[i].Processed? && os[i].filename == file
  }

  /** A result appended to the results carries its uid and file in
      addition to the earlier ones. */
  lemma TouchesSnoc(os: seq<Outcome>, o: Outcome)
    ensures forall u :: TouchesUid(os + [o], u) <==> TouchesUid(os, u) || (o.Processed? && o.uid == u)
    ensures forall f :: TouchesFile(os + [o], f) <==> TouchesFile(os, f) || (o.Processed? && o.filename == f)
  {
    var all := os + [o];
    forall u ensures TouchesUid(all, u) <==> TouchesUid(os, u) || (o.Processed? && o.uid == u) {
      if TouchesUid(all, u) && !(o.Processed? && o.uid == u) {
        var i :| 0 <= i < |all| && all[i].Processed? && all[i].uid == u;
        assert os[i] == all[i];
      }
      if TouchesUid(os, u) {
        var i :| 0 <= i < |os| && os[i].Processed? && os[i].uid == u;
        assert all[i] == os[i];
      }
      if o.Processed? && o.uid == u {
        assert all[|os|] == o;
      }
    }
    forall f ensures TouchesFile(all, f) <==> TouchesFile(os, f) || (o.Processed? && o.filename == f) {
      if TouchesFile(all, f) && !(o.Processed? && o.filename == f) {
        var i :| 0 <= i < |all| && all[i].Processed? && all[i].filename == f;
        assert os[i] == all[i];
      }
      if TouchesFile(os, f) {
        var i :| 0 <= i < |os| && os[i].Processed? && os[i].filename == f;
        assert all[i] == os[i];
      }
      if o.Processed? && o.filename == f {
        assert all[|os|] == o;
      }
    }
  }

  /** What the merge stores in `packages`: the last successful result for a
      uid gives its `{build, filename}` record, and every uid no successful
      result carries keeps its old record, so results flagged `hasError`
      change nothing. */
  lemma {:induction false} MergeStoresPackages(p: Packages, os: seq<Outcome>)
    ensures forall i :: 0 <= i < |os| && LastForUid(os, i) ==>
      os[i].uid in Merge(p, os).packages && Merge(p, os).packages[os[i].uid] == PkgRecord(Builds.Stored(os[i].build), os[i].filename)
    ensures forall u :: u in Merge(p, os).packages <==> u in p.packages || TouchesUid(os, u)
    ensures forall u :: u in p.packages && !TouchesUid(os, u) ==> Merge(p, os).packages[u] == p.packages[u]
    decreases |os|
  {
    if os != [] {
      var init := os[..|os| - 1];
      var o := os[|os| - 1];
      MergeStoresPackages(p, init);
      assert os == init + [o];
      TouchesSnoc(init, o);
      forall i | 0 <= i < |os| && LastForUid(os, i)
        ensures os[i].uid in Merge(p, os).packages && Merge(p, os).packages[os[i].uid] == PkgRecord(Builds.Stored(os[i].build), os[i].filename)
      {
        if i < |os| - 1 {
          assert init[i] == os[i];
          assert LastForUid(init, i) by {
            forall j | i < j < |init| ensures !(init[j].Processed? && init[j].uid == init[i].uid) {
              assert init[j] == os[j];
            }
          }
        }
      }
    }
  }

  /** What the merge stores in `files`: the last successful result for a
      file gives that file's uid, and every file no successful result
      carries keeps its old uid. */
  lemma {:induction false} MergeStoresFiles(p: Packages, os: seq<Outcome>)
    ensures forall i :: 0 <= i < |os| && LastForFile(os, i) ==>
      os[i].filename in Merge(p, os).files && Merge(p, os).files[os[i].filename] == os[i].uid
    ensures forall f :: f in Merge(p, os).files <==> f in p.files || TouchesFile(os, f)
    ensures forall f :: f in p.files && !TouchesFile(os, f) ==> Merge(p, os).files[f] == p.files[f]
    decreases |os|
  {
    if os != [] {
      var init := os[..|os| - 1];
      var o := os[|os| - 1];
      MergeStoresFiles(p, init);
      assert os == init + [o];
      TouchesSnoc(init, o);
      forall i | 0 <= i < |os| && LastForFile(os, i)
        ensures os[i].filename in Merge(p, os).files && Merge(p, os).files[os[i].filename] == os[i].uid
      {
        if i < |os| - 1 {
          assert init[i] == os[i];
          assert LastForFile(init, i) by {
            forall j | i < j < |init| ensures !(init[j].Processed? && init[j].filename == init[i].filename) {
              assert init[j] == os[j];
            }
          }
        }
      }
    }
  }

  /** The tags file after the refresh: a fresh map of this pass's results. */
  function FreshTags(os: seq<Outcome>): map<string, seq<string>>
    decreases |os|
  {
    if os == [] then map[]
    else
      var prior := FreshTags(os[..|os| - 1]);
      match os[|os| - 1]
      case Corrupted(_) => prior
      case Processed(_, uid, _, meta) => prior[uid := Engine.GetTags(Some(meta))]
  }

  /** The tag lists after a refresh hold exactly the uids successfully
      processed in this pass. */
  lemma {:induction false} FreshTagsKeys(os: seq<Outcome>)
    ensures forall u :: u in FreshTags(os) <==> exists i :: 0 <= i < |os| && os[i].Processed? && os[i].uid == u
    decreases |os|
  {
    if os != [] {
      var init := os[..|os| - 1];
      FreshTagsKeys(init);
      forall u | u in FreshTags(os)
        ensures exists i :: 0 <= i < |os| && os[i].Processed? && os[i].uid == u
      {
        if u !in FreshTags(init) {
          assert os[|os| - 1].Processed? && os[|os| - 1].uid == u;
        } else {
          var i :| 0 <= i < |init| && init[i].Processed? && init[i].uid == u;
          assert os[i] == init[i];
        }
      }
      forall u | exists i :: 0 <= i < |os| && os[i].Processed? && os[i].uid == u
        ensures u in FreshTags(os)
      {
        var i :| 0 <= i < |os| && os[i].Processed? && os[i].uid == u;
        if i < |os| - 1 {
          assert init[i] == os[i];
        }
      }
    }
  }

  /** The metadata of the last successful result for `uid`, if any. */
  function MetaOf(os: seq<Outcome>, uid: string): (m: Option<Engine.Meta>)
    ensures m.Some? ==> exists i :: 0 <= i < |os| && LastForUid(os, i) && os[i].uid == uid && os[i].meta == m.value
    ensures m.None? ==> forall i :: 0 <= i < |os| ==> !(os[i].Processed? && os[i].uid == uid)
    decreases |os|
  {
    if os == [] then None
    else
      var o := os[|os| - 1];
      if o.Processed? && o.uid == uid then Some(o.meta)
      else
        var init := os[..|os| - 1];
        var m := MetaOf(init, uid);
        assert forall i :: 0 <= i < |os| - 1 ==> os[i] == init[i];
        assert m.Some? ==> exists i :: 0 <= i < |os| && LastForUid(os, i) && os[i].uid == uid && os[i].meta == m.value by {
          if m.Some? {
            var i :| 0 <= i < |init| && LastForUid(init, i) && init[i].uid == uid && init[i].meta == m.value;
            assert LastForUid(os, i);
          }
        }
        m
  }

  /** The results flagged `hasError`, in order. */
  function Errors(os: seq<Outcome>): (e: seq<Outcome>)
    ensures forall o :: o in e <==> o in os && o.Corrupted?
    decreases |os|
  {
    if os == [] then []
    else Errors(os[..|os| - 1]) + (if os[|os| - 1].Corrupted? then [os[|os| - 1]] else [])
  }

  /** One entry of `trackeds`. */
  datatype Tracked = Tracked(uid: string, filename: string, build: Builds.BuildField, meta: Option<Engine.Meta>)

  /** What the refresh hands to its callback. */
  datatype Report = Report(trackeds: map<string, Tracked>, files: map<string, Entry>, errors: seq<Outcome>)

  /** One `{uid, filename, build}` per remaining package, with `meta` only
      for the uids processed in this pass. */
  function ReportOf(p: Packages, files: map<string, Entry>, os: seq<Outcome>): Report
  {
    Report(map u | u in p.packages :: Tracked(u, p.packages[u].filename, p.packages[u].build, MetaOf(os, u)),
           files, Errors(os))
  }

  /** The report has one `{uid, filename, build}` per remaining package,
      with `meta` exactly for the uids processed in this pass. */
  lemma ReportShape(p: Packages, files: map<string, Entry>, os: seq<Outcome>)
    ensures ReportOf(p, files, os).trackeds.Keys == p.packages.Keys
    ensures forall u :: u in ReportOf(p, files, os).trackeds ==>
      && ReportOf(p, files, os).trackeds[u].uid == u
      && ReportOf(p, files, os).trackeds[u].filename == p.packages[u].filename
      && ReportOf(p, files, os).trackeds[u].build == p.packages[u].build
      && (ReportOf(p, files, os).trackeds[u].meta.Some? <==> exists i :: 0 <= i < |os| && os[i].Processed? && os[i].uid == u)
    ensures ReportOf(p, files, os).files == files
  {
  }

  /** The documents after a refresh. */
  function Refreshed(reg: Registry, files: map<string, Entry>, os: seq<Outcome>): Registry {
    var r := Stash(UntrackMissing(AfterDeleted(reg, files), files), os);
    Registry(Merge(r.pkgs, os), FreshTags(os), r.data, r.writes + [PackagesDoc, TagsDoc])
  }

  /** The deleted-file loop: drop each deleted name and its uid. */
  method DropDeleted(reg: Registry, files: map<string, Entry>) returns (r: Registry)
    ensures r == AfterDeleted(reg, files)
  {
    var names := DeletedNames(files);
    if names == {} {
      return reg;
    }
    var packages, fileUids, tags, data := reg.pkgs.packages, reg.pkgs.files, reg.tags, reg.data;
    var todo := names;
    while todo != {}
      invariant todo <= names
      invariant packages == reg.pkgs.packages - DroppedUids(reg.pkgs, names - todo)
      invariant fileUids == reg.pkgs.files - (names - todo)
      invariant tags == reg.tags - DroppedUids(reg.pkgs, names - todo)
      invariant data == reg.data - DroppedUids(reg.pkgs, names - todo)
      decreases todo
    {
      var f :| f in todo;
      var uid := UidOf(fileUids, f);
      assert uid == UidOf(reg.pkgs.files, f);
      assert DroppedUids(reg.pkgs, names - (todo - {f})) == DroppedUids(reg.pkgs, names - todo) + {uid};
      packages := packages - {uid};
      fileUids := fileUids - {f};
      tags := tags - {uid};
      data := data - {uid};
      todo := todo - {f};
    }
    r := Registry(Packages(packages, fileUids), tags, data, reg.writes + [TagsDoc]);
  }

  /** The missing-file loop: drop each package whose file is not in the ledger. */
  method DropMissing(reg: Registry, files: map<string, Entry>) returns (r: Registry)
    ensures r == UntrackMissing(reg, files)
  {
    var missing := MissingUids(reg.pkgs, files);
    if missing == {} {
      return reg;
    }
    var packages, tags, data := reg.pkgs.packages, reg.tags, reg.data;
    var todo := missing;
    while todo != {}
      invariant todo <= missing
      invariant packages == reg.pkgs.packages - (missing - todo)
      invariant tags == reg.tags - (missing - todo)
      invariant data == reg.data - (missing - todo)
      decreases todo
    {
      var u :| u in todo;
      packages := packages - {u};
      tags := tags - {u};
      data := data - {u};
      todo := todo - {u};
    }
    r := Registry(Packages(packages, reg.pkgs.files), tags, data, reg.writes + [TagsDoc]);
  }

  /** `proccesFile`'s write for one result: the metadata of a successful one. */
  method StashOne(g: Gateway, o: Outcome)
    modifies g`data, g`writes
    ensures g.Docs() == Stash(old(g.Docs()), [o])
  {
    if o.Processed? {
      g.data := g.data[o.uid := o.meta];
      g.writes := g.writes + [DataDoc(o.uid)];
    }
    assert [o][..0] == [];
  }

  /** The processing loop: one `proccesFile` per name, in order. */
  method ProcessNames(names: seq<string>, root: string, read: string -> Option<Engine.Meta>)
    returns (os: seq<Outcome>)
    ensures os == Outcomes(names, root, read)
  {
    os := [];
    for i := 0 to |names|
      invariant os == Seqs.Map(Processor(root, read), names[..i])
    {
      Seqs.MapGrow(Processor(root, read), names, i);
      os := os + [Processor(root, read)(names[i])];
    }
    assert names[..|names|] == names;
    OutcomesAsMap(names, root, read);
  }

  /** The metadata writes of the processing step, in result order. */
  method StashAll(g: Gateway, os: seq<Outcome>)
    modifies g`data, g`writes
    ensures g.Docs() == Stash(old(g.Docs()), os)
  {
    ghost var start := g.Docs();
    for i := 0 to |os|
      invariant g.Docs() == Stash(start, os[..i])
    {
      StashSnoc(start, os[..i], os[i]);
      StashOne(g, os[i]);
      assert os[..i + 1] == os[..i] + [os[i]];
    }
    assert os[..|os|] == os;
  }

  method ProcessAll(g: Gateway, names: seq<string>, root: string, read: string -> Option<Engine.Meta>)
    returns (os: seq<Outcome>)
    modifies g`data, g`writes
    ensures os == Outcomes(names, root, read)
    ensures g.Docs() == Stash(old(g.Docs()), os)
  {
    os := ProcessNames(names, root, read);
    StashAll(g, os);
  }

  method MergeAll(p: Packages, os: seq<Outcome>) returns (q: Packages)
    ensures q == Merge(p, os)
  {
    q := p;
    for i := 0 to |os|
      invariant q == Merge(p, os[..i])
    {
      assert os[..i + 1][..i] == os[..i];
      q := MergeOne(q, os[i]);
    }
    assert os[..|os|] == os;
  }

  method CollectTags(os: seq<Outcome>) returns (tags: map<string, seq<string>>)
    ensures tags == FreshTags(os)
  {
    tags := map[];
    for i := 0 to |os|
      invariant tags == FreshTags(os[..i])
    {
      assert os[..i + 1][..i] == os[..i];
      if os[i].Processed? {
        tags := tags[os[i].uid := Engine.GetTags(Some(os[i].meta))];
      }
    }
    assert os[..|os|] == os;
  }

  /** `refresh`, with the tag lists read before the missing-file phase. */
  method Refresh(g: Gateway, files: map<string, Entry>, order: seq<string>, root: string,
                 read: string -> Option<Engine.Meta>) returns (report: Report)
    requires KeysOf(order, files)
    modifies g`pkgs, g`tags, g`data, g`writes
    ensures var os := Outcomes(ToProcess(old(g.pkgs), files, order), root, read);
      && g.Docs() == Refreshed(old(g.Docs()), files, os)
      && report == ReportOf(g.pkgs, files, os)
  {
    ghost var reg0 := g.Docs();
    var todo := ToProcess(g.pkgs, files, order);
    var reg := DropDeleted(g.Docs(), files);
    reg := DropMissing(reg, files);
    g.tags, g.data, g.writes := reg.tags, reg.data, reg.writes;
    assert g.Docs() == reg.(pkgs := old(g.pkgs));
    var os := ProcessAll(g, todo, root, read);
    ghost var stashed := Stash(reg, os);
    StashIgnoresPackages(reg, old(g.pkgs), os);
    assert g.data == stashed.data && g.writes == stashed.writes;
    var pkgs := MergeAll(reg.pkgs, os);
    g.pkgs := pkgs;
    g.writes := g.writes + [PackagesDoc];
    var tags := CollectTags(os);
    g.tags := tags;
    g.writes := g.writes + [TagsDoc];
    assert stashed == Stash(UntrackMissing(AfterDeleted(reg0, files), files), os);
    assert g.Docs() == Registry(Merge(stashed.pkgs, os), FreshTags(os), stashed.data, stashed.writes + [PackagesDoc, TagsDoc]);
    report := ReportOf(pkgs, files, os);
  }
}
