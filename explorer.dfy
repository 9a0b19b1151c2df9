/** The older change detector (lib/epm/fs-explorer.js): `read` refreshes
    the ledger from a full directory listing and announces the deleted,
    added, changed and unchanged groups as events; `_handler` refreshes a
    single file reported by the watcher.  Events are appended to `trace`. */
module Explorer {
  import opened Wrappers
  import opened Store
  import Paths

  /** `fileStatus(prev, stat, filename)`: unlike the repository filer, an
      added file is hashed straight away. */
  function FileStatus(prev: Option<Entry>, name: string, disk: map<string, DiskFile>,
                      hash: string -> Option<string>): (s: Status)
    ensures s.code == -1 <==> name !in disk
    ensures s.code == -1 ==> s.stats.None? && s.checksum.None?
    ensures name in disk ==> s.stats == Some(StatsOf(disk[name]))
    ensures name in disk && prev.None? ==> s.code == 1 && s.checksum == hash(disk[name].content)
    ensures name in disk && prev.Some? && prev.value.stats == Some(StatsOf(disk[name])) ==>
      s.code == 0 && s.checksum.None?
    ensures name in disk && prev.Some? && prev.value.stats != Some(StatsOf(disk[name])) ==>
      && s.checksum == hash(disk[name].content)
      && (s.code == 2 <==> prev.value.checksum != s.checksum)
      && (s.code == 0 <==> prev.value.checksum == s.checksum)
  {
    if name !in disk then Status(None, -1, None)
    else
      var stat := StatsOf(disk[name]);
      if prev.None? then Status(Some(stat), 1, hash(disk[name].content))
      else if prev.value.stats.Some? && stat.mtime == prev.value.stats.value.mtime
              && stat.size == prev.value.stats.value.size then Status(Some(stat), 0, None)
      else
        var sum := hash(disk[name].content);
        Status(Some(stat), if prev.value.checksum != sum then 2 else 0, sum)
  }

  /** JavaScript truthiness of an optional string. */
  predicate Truthy(s: Option<string>) {
    s.Some? && s.value != ""
  }

  /** The record `read` keeps for one listed file: new stats and code, and
      `st.checksum || prev.checksum`; with no previous record and no usable
      fresh checksum that expression reads a property of undefined. */
  function Current(prev: Option<Entry>, name: string, disk: map<string, DiskFile>,
                   hash: string -> Option<string>): (c: Js<Entry>)
    requires name in disk
    ensures c.Threw? <==> prev.None? && !Truthy(hash(disk[name].content))
    ensures c.Returned? ==> c.value.stats == Some(StatsOf(disk[name]))
    ensures c.Returned? ==> c.value.code == FileStatus(prev, name, disk, hash).code
    ensures c.Returned? ==> 0 <= c.value.code <= 2
    ensures c.Returned? && Truthy(FileStatus(prev, name, disk, hash).checksum) ==>
      c.value.checksum == FileStatus(prev, name, disk, hash).checksum
    ensures c.Returned? && !Truthy(FileStatus(prev, name, disk, hash).checksum) ==>
      prev.Some? && c.value.checksum == prev.value.checksum
  {
    var st := FileStatus(prev, name, disk, hash);
    if Truthy(st.checksum) then Returned(Entry(st.stats, st.code, st.checksum))
    else if prev.None? then Threw("Cannot read property 'checksum' of undefined")
    else Returned(Entry(st.stats, st.code, prev.value.checksum))
  }

  /** The files `getFiles` reports: regular files passing the filter. */
  function Listed(disk: map<string, DiskFile>, accept: string -> bool): set<string> {
    set f | f in disk && accept(f)
  }

  /** Whether every listed file yields a record. */
  ghost predicate Readable(tracked: map<string, Entry>, disk: map<string, DiskFile>, accept: string -> bool,
                           hash: string -> Option<string>) {
    forall n :: n in Listed(disk, accept) ==> Current(Get(tracked, n), n, disk, hash).Returned?
  }

  /** The ledger `read` writes: one record per listed file, nothing else. */
  ghost function Refreshed(tracked: map<string, Entry>, disk: map<string, DiskFile>, accept: string -> bool,
                           hash: string -> Option<string>): (l: map<string, Entry>)
    requires Readable(tracked, disk, accept, hash)
    ensures l.Keys == Listed(disk, accept)
  {
    map n | n in Listed(disk, accept) :: Current(Get(tracked, n), n, disk, hash).value
  }

  /** Ledger names that are not listed, with their last record. */
  function Vanished(tracked: map<string, Entry>, listed: set<string>): (d: map<string, Entry>)
    ensures forall n :: n in d <==> n in tracked && n !in listed
    ensures forall n :: n in d ==> d[n] == tracked[n]
  {
    map n | n in tracked && n !in listed :: tracked[n]
  }

  /** `filterTrackeds(tracked, code)`. */
  function WithCode(tracked: map<string, Entry>, code: int): (r: map<string, Entry>)
    ensures forall n :: n in r <==> n in tracked && tracked[n].code == code
    ensures forall n :: n in r ==> r[n] == tracked[n]
  {
    map n | n in tracked && tracked[n].code == code :: tracked[n]
  }

  datatype Kind = Deleted | Added | Change | Unchange

  /** `file.<kind>` with its payload, or `error`. */
  datatype Event =
    | Batch(kind: Kind, files: map<string, Entry>)
    | Single(kind: Kind, name: string, entry: Option<Entry>)
    | Failed(message: string)

  /** A group is announced only when it is not empty. */
  function Announce(kind: Kind, files: map<string, Entry>): seq<Event> {
    if files == map[] then [] else [Batch(kind, files)]
  }

  /** The events of a successful `read`, in emission order. */
  ghost function ReadEvents(tracked: map<string, Entry>, disk: map<string, DiskFile>, accept: string -> bool,
                            hash: string -> Option<string>): seq<Event>
    requires Readable(tracked, disk, accept, hash)
  {
    var l := Refreshed(tracked, disk, accept, hash);
    Announce(Deleted, Vanished(tracked, Listed(disk, accept)))
      + Announce(Added, WithCode(l, 1)) + Announce(Change, WithCode(l, 2)) + Announce(Unchange, WithCode(l, 0))
  }

  /** What `_handler` stores and announces for one file: the previous
      record, untouched, for -1 and 0; a fresh record for 1 and 2. */
  function Handled(prev: Option<Entry>, name: string, disk: map<string, DiskFile>,
                   hash: string -> Option<string>): (h: (Kind, Option<Entry>))
    ensures var s := FileStatus(prev, name, disk, hash);
      && (s.code == -1 ==> h == (Deleted, prev))
      && (s.code == 0 ==> h == (Unchange, prev))
      && (s.code == 1 ==> h == (Added, Some(Entry(s.stats, 1, s.checksum))))
      && (s.code == 2 ==> h == (Change, Some(Entry(s.stats, 2, s.checksum))))
  {
    var s := FileStatus(prev, name, disk, hash);
    if s.code == -1 then (Deleted, prev)
    else if s.code == 0 then (Unchange, prev)
    else if s.code == 1 then (Added, Some(Entry(s.stats, 1, s.checksum)))
    else (Change, Some(Entry(s.stats, 2, s.checksum)))
  }

  /** `tracked[name] = value`; an undefined value leaves no key once written. */
  function Put(tracked: map<string, Entry>, name: string, value: Option<Entry>): (t: map<string, Entry>)
    ensures forall n :: n != name ==> Get(t, n) == Get(tracked, n)
    ensures Get(t, name) == value
  {
    match value
    case Some(e) => tracked[name := e]
    case None => tracked - {name}
  }

  /** The per-file step of `read` over every listed name; the first
      failing record ends it. */
  method Records(tracked: map<string, Entry>, disk: map<string, DiskFile>, accept: string -> bool,
                 hash: string -> Option<string>) returns (r: Js<map<string, Entry>>)
    ensures r.Threw? <==> !Readable(tracked, disk, accept, hash)
    ensures r.Returned? ==> Readable(tracked, disk, accept, hash) && r.value == Refreshed(tracked, disk, accept, hash)
  {
    var listed := Listed(disk, accept);
    var currents: map<string, Entry> := map[];
    var todo := listed;
    while todo != {}
      invariant todo <= listed
      invariant currents.Keys == listed - todo
      invariant forall n :: n in currents ==> Current(Get(tracked, n), n, disk, hash) == Returned(currents[n])
      decreases todo
    {
      var n :| n in todo;
      var c := Current(Get(tracked, n), n, disk, hash);
      if c.Threw? {
        return Threw(c.message);
      }
      currents := currents[n := c.value];
      todo := todo - {n};
    }
    assert Readable(tracked, disk, accept, hash);
    return Returned(currents);
  }

  /** Overwrite the ledger record of every refreshed name. */
  method Override(tracked: map<string, Entry>, currents: map<string, Entry>) returns (t: map<string, Entry>)
    ensures forall n :: n in t <==> n in tracked || n in currents
    ensures forall n :: n in currents ==> t[n] == currents[n]
    ensures forall n :: n in t && n !in currents ==> t[n] == tracked[n]
  {
    t := tracked;
    var todo := currents.Keys;
    while todo != {}
      invariant todo <= currents.Keys
      invariant forall n :: n in t <==> n in tracked || n in currents.Keys - todo
      invariant forall n :: n in t && n !in currents.Keys - todo ==> t[n] == tracked[n]
      invariant forall n :: n in currents.Keys - todo ==> t[n] == currents[n]
      decreases todo
    {
      var n :| n in todo;
      t := t[n := currents[n]];
      todo := todo - {n};
    }
  }

  /** Remove every name that is not listed, collecting its last record. */
  method Untrack(tracked: map<string, Entry>, listed: set<string>) returns (t: map<string, Entry>, deleted: map<string, Entry>)
    ensures forall n :: n in t <==> n in tracked && n in listed
    ensures forall n :: n in t ==> t[n] == tracked[n]
    ensures deleted == Vanished(tracked, listed)
  {
    t := tracked;
    deleted := map[];
    var gone := tracked.Keys - listed;
    while gone != {}
      invariant gone <= tracked.Keys - listed
      invariant forall n :: n in t <==> n in tracked && (n in listed || n in gone)
      invariant forall n :: n in t ==> t[n] == tracked[n]
      invariant forall n :: n in deleted <==> n in tracked && n !in listed && n !in gone
      invariant forall n :: n in deleted ==> deleted[n] == tracked[n]
      decreases gone
    {
      var f :| f in gone;
      deleted := deleted[f := t[f]];
      t := t - {f};
      gone := gone - {f};
    }
  }

  /** Overriding with one record per listed name and then dropping the
      unlisted names leaves exactly those records. */
  lemma RefreshReplaces(tracked: map<string, Entry>, currents: map<string, Entry>, t: map<string, Entry>,
                        listed: set<string>)
    requires currents.Keys == listed
    requires forall n :: n in t <==> (n in tracked || n in currents) && n in listed
    requires forall n :: n in t ==> t[n] == currents[n]
    ensures t == currents
  {
  }

  /** The added, changed and unchanged groups split the refreshed ledger:
      every record lies in exactly one of them. */
  lemma GroupsPartition(tracked: map<string, Entry>, disk: map<string, DiskFile>, accept: string -> bool,
                        hash: string -> Option<string>)
    requires Readable(tracked, disk, accept, hash)
    ensures var l := Refreshed(tracked, disk, accept, hash);
      && WithCode(l, 1) + WithCode(l, 2) + WithCode(l, 0) == l
      && WithCode(l, 1).Keys !! WithCode(l, 2).Keys
      && WithCode(l, 1).Keys !! WithCode(l, 0).Keys
      && WithCode(l, 2).Keys !! WithCode(l, 0).Keys
  {
    var l := Refreshed(tracked, disk, accept, hash);
    forall n | n in l
      ensures 0 <= l[n].code <= 2
    {
      assert Current(Get(tracked, n), n, disk, hash).Returned?;
    }
    var u := WithCode(l, 1) + WithCode(l, 2) + WithCode(l, 0);
    assert u.Keys == l.Keys;
  }

  /** Reading the same directory twice: the second read cannot throw,
      reports nothing deleted, and finds every file unchanged with its
      checksum kept, so only the unchanged group is announced. */
  lemma {:induction false} SecondReadSettles(tracked: map<string, Entry>, disk: map<string, DiskFile>,
                                              accept: string -> bool, hash: string -> Option<string>)
    requires Readable(tracked, disk, accept, hash)
    ensures var l1 := Refreshed(tracked, disk, accept, hash);
      && Readable(l1, disk, accept, hash)
      && var l2 := Refreshed(l1, disk, accept, hash);
      && l2.Keys == l1.Keys
      && (forall n :: n in l2 ==> l2[n].code == 0 && l2[n].checksum == l1[n].checksum)
      && ReadEvents(l1, disk, accept, hash) == Announce(Unchange, l2)
  {
    var l1 := Refreshed(tracked, disk, accept, hash);
    forall n | n in Listed(disk, accept)
      ensures Current(Get(l1, n), n, disk, hash).Returned?
      ensures Current(Get(l1, n), n, disk, hash).value.code == 0
      ensures Current(Get(l1, n), n, disk, hash).value.checksum == l1[n].checksum
    {
      assert l1[n].stats == Some(StatsOf(disk[n]));
    }
    var l2 := Refreshed(l1, disk, accept, hash);
    assert Vanished(l1, Listed(disk, accept)) == map[];
    assert WithCode(l2, 1) == map[];
    assert WithCode(l2, 2) == map[];
    assert WithCode(l2, 0) == l2;
  }

  class FsExplorer {
    const fs: Gateway
    var trace: seq<Event>

    constructor(fs: Gateway)
      ensures this.fs == fs && trace == []
    {
      this.fs := fs;
      trace := [];
    }

    /** `read`: a listing error is announced; a failing record throws
        before anything is written; otherwise the ledger becomes one record
        per listed file, the groups are announced and the ledger is written once. */
    method Read(dir: Result<map<string, DiskFile>, string>, accept: string -> bool, hash: string -> Option<string>)
      returns (r: Js<()>)
      modifies this`trace, fs`ledger, fs`writes
      ensures dir.Err? ==> r.Returned? && trace == old(trace) + [Failed(dir.error)]
      ensures dir.Err? ==> fs.ledger == old(fs.ledger) && fs.writes == old(fs.writes)
      ensures dir.Ok? ==> (r.Threw? <==> !Readable(old(fs.ledger), dir.value, accept, hash))
      ensures dir.Ok? && r.Threw? ==>
        trace == old(trace) && fs.ledger == old(fs.ledger) && fs.writes == old(fs.writes)
      ensures dir.Ok? && r.Returned? ==>
        && fs.ledger == Refreshed(old(fs.ledger), dir.value, accept, hash)
        && fs.writes == old(fs.writes) + [FilesDoc]
        && trace == old(trace) + ReadEvents(old(fs.ledger), dir.value, accept, hash)
    {
      if dir.Err? {
        trace := trace + [Failed(dir.error)];
        return Returned(());
      }
      var disk := dir.value;
      var listed := Listed(disk, accept);
      var currents := Records(fs.ledger, disk, accept, hash);
      if currents.Threw? {
        return Threw(currents.message);
      }
      var tracked := Override(fs.ledger, currents.value);
      var delobjs;
      tracked, delobjs := Untrack(tracked, listed);
      RefreshReplaces(old(fs.ledger), currents.value, tracked, listed);
      assert delobjs == Vanished(old(fs.ledger), listed);
      var events: seq<Event> := [];
      if delobjs != map[] {
        events := events + [Batch(Deleted, delobjs)];
      }
      assert events == Announce(Deleted, delobjs);
      var addeds := WithCode(tracked, 1);
      if addeds != map[] {
        events := events + [Batch(Added, addeds)];
      }
      assert events == Announce(Deleted, delobjs) + Announce(Added, addeds);
      var changes := WithCode(tracked, 2);
      if changes != map[] {
        events := events + [Batch(Change, changes)];
      }
      assert events == Announce(Deleted, delobjs) + Announce(Added, addeds) + Announce(Change, changes);
      var unchanges := WithCode(tracked, 0);
      if unchanges != map[] {
        events := events + [Batch(Unchange, unchanges)];
      }
      assert events == ReadEvents(old(fs.ledger), disk, accept, hash);
      trace := trace + events;
      fs.ledger := tracked;
      fs.writes := fs.writes + [FilesDoc];
      return Returned(());
    }

    /** `_handler`: refresh the one file the watcher named, write the
        ledger and announce it. */
    method Handle(path: string, disk: map<string, DiskFile>, hash: string -> Option<string>)
      modifies this`trace, fs`ledger, fs`writes
      ensures var name := Paths.Basename(path);
        var h := Handled(Get(old(fs.ledger), name), name, disk, hash);
        && fs.ledger == Put(old(fs.ledger), name, h.1)
        && fs.writes == old(fs.writes) + [FilesDoc]
        && trace == old(trace) + [Single(h.0, name, h.1)]
    {
      var tracked := fs.ledger;
      var name := Paths.Basename(path);
      var prev := Get(tracked, name);
      var h := Handled(prev, name, disk, hash);
      tracked := Put(tracked, name, h.1);
      fs.ledger := tracked;
      fs.writes := fs.writes + [FilesDoc];
      trace := trace + [Single(h.0, name, h.1)];
    }
  }
}
