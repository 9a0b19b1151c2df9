/** The single-worker package queue of a local repository
    (lib/epm/epkg.js): the explorer's file events are queued and handled
    one at a time, registering, updating, untracking or checking the
    package held by each file.  Archives are read through `PkgReader` with
    the engine oracle `read`; `root` is the repository folder. */
module Epkg {
  import opened Wrappers
  import opened Store
  import Builds
  import Engine
  import Paths
  import Explorer
  import PkgReader

  /** One queued file: the event type, the name and the ledger checksum. */
  datatype Item = Item(kind: Explorer.Kind, filename: string, checksum: Option<string>)

  datatype Event =
    | Ready
    | Untracked(record: Option<PkgRecord>)
    | Registered(data: PkgReader.PkgRead)
    | Updated(data: PkgReader.PkgRead)

  /** The items `incoming` queues for one event, in key order. */
  function Items(kind: Explorer.Kind, data: map<string, Entry>, order: seq<string>): (items: seq<Item>)
    requires forall k :: k in order ==> k in data
    ensures |items| == |order|
    ensures forall i :: 0 <= i < |order| ==> items[i] == Item(kind, order[i], data[order[i]].checksum)
  {
    seq(|order|, i requires 0 <= i < |order| => Item(kind, order[i], data[order[i]].checksum))
  }

  /** The registry and the events after one handler. */
  datatype State = State(reg: Registry, trace: seq<Event>)

  /** `untrackFile`: nothing for an unknown file; otherwise the package and
      the file entry go, the metadata file is removed, and only the packages
      file is written, so the tags file keeps the uid's tags. */
  function Untrack(st: State, filename: string): State {
    var p := st.reg.pkgs;
    if filename !in p.files then st
    else
      var uid := p.files[filename];
      var record := if uid in p.packages then Some(p.packages[uid]) else None;
      State(st.reg.(pkgs := Packages(p.packages - {uid}, p.files - {filename}),
                    data := st.reg.data - {uid},
                    writes := st.reg.writes + [PackagesDoc]),
            st.trace + [Untracked(record)])
  }

  /** What a successful read stores: metadata, tags, then packages. */
  function Saved(st: State, filename: string, d: PkgReader.PkgRead, files: map<string, string>, ev: Event): State {
    var p := st.reg.pkgs;
    State(Registry(Packages(p.packages[d.uid := PkgRecord(d.meta.build, filename)], files),
                   st.reg.tags[d.uid := Engine.GetTags(Some(d.meta))],
                   st.reg.data[d.uid := d.meta],
                   st.reg.writes + [DataDoc(d.uid), TagsDoc, PackagesDoc]),
          st.trace + [ev])
  }

  /** `registerFile`: a reader error changes nothing; otherwise the file
      is registered under the uid it holds, with the raw build. */
  function Register(st: State, filename: string, r: Result<PkgReader.PkgRead, string>): State {
    match r
    case Err(_) => st
    case Ok(d) => Saved(st, filename, d, st.reg.pkgs.files[filename := d.uid], Registered(d))
  }

  /** `updateFile`: as registering, except that `files` is left untouched. */
  function Update(st: State, filename: string, r: Result<PkgReader.PkgRead, string>): State {
    match r
    case Err(_) => st
    case Ok(d) => Saved(st, filename, d, st.reg.pkgs.files, Updated(d))
  }

  /** `checkFile`: register an untracked file, leave a tracked one alone. */
  function Check(st: State, filename: string, r: Result<PkgReader.PkgRead, string>): State {
    if filename in st.reg.pkgs.files then st else Register(st, filename, r)
  }

  /** `processFile`: dispatch on the event type. */
  function Dispatch(st: State, item: Item, r: Result<PkgReader.PkgRead, string>): State {
    match item.kind
    case Deleted => Untrack(st, item.filename)
    case Added => Register(st, item.filename, r)
    case Change => Update(st, item.filename, r)
    case Unchange => Check(st, item.filename, r)
  }

  /** Handling the queued items in order, then `ready`. */
  function Drain(st: State, items: seq<Item>, root: string, read: string -> Option<Engine.Meta>): State
    decreases |items|
  {
    if items == [] then st.(trace := st.trace + [Ready])
    else
      var r := PkgReader.Read(Paths.Join([root, items[0].filename]), read);
      Drain(Dispatch(st, items[0], r), items[1..], root, read)
  }

  /** Handlers only append to the trace, at most one event each. */
  lemma DispatchAppends(st: State, item: Item, r: Result<PkgReader.PkgRead, string>)
    ensures var t := Dispatch(st, item, r).trace;
      t == st.trace || (|t| == |st.trace| + 1 && t[..|st.trace|] == st.trace && t[|st.trace|] != Ready)
  {
  }

  /** Draining keeps the earlier events and ends with exactly one `ready`,
      after the events of every queued item. */
  lemma {:induction false} DrainEndsReady(st: State, items: seq<Item>, root: string, read: string -> Option<Engine.Meta>)
    ensures var t := Drain(st, items, root, read).trace;
      && |t| > |st.trace| && t[..|st.trace|] == st.trace && t[|t| - 1] == Ready
      && forall i :: |st.trace| <= i < |t| - 1 ==> t[i] != Ready
    decreases |items|
  {
    if items != [] {
      var r := PkgReader.Read(Paths.Join([root, items[0].filename]), read);
      var mid := Dispatch(st, items[0], r);
      DispatchAppends(st, items[0], r);
      DrainEndsReady(mid, items[1..], root, read);
      var t := Drain(st, items, root, read).trace;
      assert t[..|mid.trace|] == mid.trace;
      assert t[..|st.trace|] == mid.trace[..|st.trace|];
    }
  }

  /** The registry's two indexes agree: every tracked file names a package
      whose record points back at that file. */
  predicate Consistent(p: Packages) {
    forall f :: f in p.files ==> p.files[f] in p.packages && p.packages[p.files[f]].filename == f
  }

  /** Untracking keeps the indexes in agreement. */
  lemma UntrackKeepsConsistent(st: State, filename: string)
    requires Consistent(st.reg.pkgs)
    ensures Consistent(Untrack(st, filename).reg.pkgs)
  {
    var p := st.reg.pkgs;
    if filename in p.files {
      var q := Untrack(st, filename).reg.pkgs;
      forall f | f in q.files
        ensures q.files[f] in q.packages && q.packages[q.files[f]].filename == f
      {
        assert p.packages[p.files[f]].filename == f;
        assert p.files[f] != p.files[filename];
      }
    }
  }

  /** Registering a uid that no other file holds keeps the indexes in agreement. */
  lemma RegisterKeepsConsistent(st: State, filename: string, r: Result<PkgReader.PkgRead, string>)
    requires Consistent(st.reg.pkgs)
    requires r.Ok? ==> forall f :: f in st.reg.pkgs.files && f != filename ==> st.reg.pkgs.files[f] != r.value.uid
    ensures Consistent(Register(st, filename, r).reg.pkgs)
  {
  }

  /** Untracking removes the package record and the file entry but, as the
      tags file is not written, the uid's tags stay. */
  lemma UntrackKeepsTags(st: State, filename: string)
    requires filename in st.reg.pkgs.files
    ensures var after := Untrack(st, filename).reg;
      var uid := st.reg.pkgs.files[filename];
      && uid !in after.pkgs.packages && filename !in after.pkgs.files
      && after.tags == st.reg.tags
      && after.writes == st.reg.writes + [PackagesDoc]
  {
  }

  /** A changed file that now holds another uid: the update records the new
      package under the file while `files` still names the old uid, so the
      indexes no longer agree. */
  lemma UpdateBreaksConsistency()
    ensures var meta := Engine.Meta("u2", Builds.NoBuild, None);
      var d := PkgReader.PkgRead("a.zip", "u2", Builds.Int(1), meta);
      var st := State(Registry(Packages(map["u1" := PkgRecord(Builds.NoBuild, "a.zip")], map["a.zip" := "u1"]),
                               map[], map[], []), []);
      var after := Update(st, "a.zip", Ok(d)).reg.pkgs;
      && Consistent(st.reg.pkgs)
      && after.files["a.zip"] == "u1"
      && after.packages["u2"].filename == "a.zip"
      && after.packages["u1"].filename == "a.zip"
  {
  }

  class Worker {
    const fs: Gateway
    const root: string
    var queue: seq<Item>
    var isProcessing: bool
    var trace: seq<Event>

    constructor(fs: Gateway, root: string)
      ensures this.fs == fs && this.root == root && queue == [] && !isProcessing && trace == []
    {
      this.fs := fs;
      this.root := root;
      queue := [];
      isProcessing := false;
      trace := [];
    }

    function Current(): State
      reads this, fs
    {
      State(fs.Docs(), trace)
    }

    /** `incoming`: one item per key, after the items already queued. The
        deferred `process()` call is left to the caller. */
    method Incoming(kind: Explorer.Kind, data: map<string, Entry>, order: seq<string>)
      requires forall k :: k in order <==> k in data
      modifies this`queue
      ensures queue == old(queue) + Items(kind, data, order)
    {
      for i := 0 to |order|
        invariant queue == old(queue) + Items(kind, data, order[..i])
      {
        assert Items(kind, data, order[..i + 1]) == Items(kind, data, order[..i]) + [Item(kind, order[i], data[order[i]].checksum)];
        queue := queue + [Item(kind, order[i], data[order[i]].checksum)];
      }
      assert order[..|order|] == order;
    }

    method UntrackFile(filename: string)
      modifies fs`pkgs, fs`data, fs`writes, this`trace
      ensures Current() == Untrack(old(Current()), filename)
    {
      var pkgs := fs.pkgs;
      if filename !in pkgs.files {
        return;
      }
      var uid := pkgs.files[filename];
      var p := if uid in pkgs.packages then Some(pkgs.packages[uid]) else None;
      pkgs := Packages(pkgs.packages - {uid}, pkgs.files - {filename});
      fs.data := fs.data - {uid};
      fs.pkgs := pkgs;
      fs.writes := fs.writes + [PackagesDoc];
      trace := trace + [Untracked(p)];
    }

    method Save(filename: string, d: PkgReader.PkgRead, files: map<string, string>, ev: Event)
      modifies fs`pkgs, fs`tags, fs`data, fs`writes, this`trace
      ensures Current() == Saved(old(Current()), filename, d, files, ev)
    {
      var pkgs := Packages(fs.pkgs.packages[d.uid := PkgRecord(d.meta.build, filename)], files);
      fs.data := fs.data[d.uid := d.meta];
      fs.writes := fs.writes + [DataDoc(d.uid)];
      var tags := fs.tags;
      tags := tags[d.uid := Engine.GetTags(Some(d.meta))];
      fs.tags := tags;
      fs.writes := fs.writes + [TagsDoc];
      fs.pkgs := pkgs;
      fs.writes := fs.writes + [PackagesDoc];
      trace := trace + [ev];
    }

    method RegisterFile(filename: string, read: string -> Option<Engine.Meta>)
      modifies fs`pkgs, fs`tags, fs`data, fs`writes, this`trace
      ensures Current() == Register(old(Current()), filename, PkgReader.Read(Paths.Join([root, filename]), read))
    {
      var r := PkgReader.Read(Paths.Join([root, filename]), read);
      if r.Ok? {
        Save(filename, r.value, fs.pkgs.files[filename := r.value.uid], Registered(r.value));
      }
    }

    method UpdateFile(filename: string, read: string -> Option<Engine.Meta>)
      modifies fs`pkgs, fs`tags, fs`data, fs`writes, this`trace
      ensures Current() == Update(old(Current()), filename, PkgReader.Read(Paths.Join([root, filename]), read))
    {
      var r := PkgReader.Read(Paths.Join([root, filename]), read);
      if r.Ok? {
        Save(filename, r.value, fs.pkgs.files, Updated(r.value));
      }
    }

    method CheckFile(filename: string, read: string -> Option<Engine.Meta>)
      modifies fs`pkgs, fs`tags, fs`data, fs`writes, this`trace
      ensures Current() == Check(old(Current()), filename, PkgReader.Read(Paths.Join([root, filename]), read))
    {
      if filename !in fs.pkgs.files {
        RegisterFile(filename, read);
      }
    }

    method ProcessFile(item: Item, read: string -> Option<Engine.Meta>)
      modifies fs`pkgs, fs`tags, fs`data, fs`writes, this`trace
      ensures Current() == Dispatch(old(Current()), item, PkgReader.Read(Paths.Join([root, item.filename]), read))
    {
      match item.kind
      case Deleted => UntrackFile(item.filename);
      case Added => RegisterFile(item.filename, read);
      case Change => UpdateFile(item.filename, read);
      case Unchange => CheckFile(item.filename, read);
    }

    /** `process`: `ready` on an empty queue; nothing while a file is in
        flight; otherwise the head is taken off and handled, and the worker
        goes on with the rest, in order. */
    method Process(read: string -> Option<Engine.Meta>)
      modifies this`queue, this`isProcessing, this`trace, fs`pkgs, fs`tags, fs`data, fs`writes
      ensures old(queue) != [] && old(isProcessing) ==> unchanged(this) && unchanged(fs)
      ensures old(queue) == [] ==>
        Current() == old(Current()).(trace := old(trace) + [Ready]) && queue == [] && isProcessing == old(isProcessing)
      ensures old(queue) != [] && !old(isProcessing) ==>
        && queue == [] && !isProcessing
        && Current() == Drain(old(Current()), old(queue), root, read)
      decreases |queue|
    {
      if queue == [] {
        trace := trace + [Ready];
        return;
      }
      if isProcessing {
        return;
      }
      ghost var q0 := queue;
      isProcessing := true;
      var file := queue[0];
      queue := queue[1..];
      ProcessFile(file, read);
      ghost var s1 := Current();
      assert s1 == Dispatch(old(Current()), q0[0], PkgReader.Read(Paths.Join([root, q0[0].filename]), read));
      isProcessing := false;
      Process(read);
      assert Drain(old(Current()), q0, root, read) == Drain(s1, q0[1..], root, read);
    }
  }
}
