/** Change detection of a served repository (lib/repo/filer.js): every
    file is classified against the stored ledger as -1 deleted, 0
    unchanged, 1 added or 2 changed, and the refreshed ledger is written
    back in one step.  The directory is a map from file name to its
    stats and content; `hash` is the checksum library (None when it fails);
    `accept` is the engine's file-name pattern. */
module Filer {
  import opened Wrappers
  import opened Store

  /** `fileStatus(tStatus, filename)`. */
  function FileStatus(prev: Option<Entry>, name: string, disk: map<string, DiskFile>,
                      hash: string -> Option<string>): (s: Status)
    ensures s.code == -1 <==> name !in disk
    ensures s.code == -1 ==> s.stats.None?
    ensures name in disk ==> s.stats == Some(StatsOf(disk[name]))
    ensures name in disk && prev.None? ==> s.code == 1 && s.checksum.None?
    ensures name in disk && prev.Some? && prev.value.stats == Some(StatsOf(disk[name])) ==>
      s.code == 0 && s.checksum.None?
    ensures name in disk && prev.Some? && prev.value.stats != Some(StatsOf(disk[name])) ==>
      && s.checksum == hash(disk[name].content)
      && (s.code == 2 <==> prev.value.checksum != s.checksum)
      && (s.code == 0 <==> prev.value.checksum == s.checksum)
  {
    if name !in disk then Status(None, -1, None)
    else
      var stat := StatsOf(disk[name]);
      if prev.None? then Status(Some(stat), 1, None)
      else if prev.value.stats.Some? && stat.mtime == prev.value.stats.value.mtime
              && stat.size == prev.value.stats.value.size then Status(Some(stat), 0, None)
      else
        var sum := hash(disk[name].content);
        Status(Some(stat), if prev.value.checksum != sum then 2 else 0, sum)
  }

  /** Ledger entries not marked deleted. */
  function Pruned(ledger: map<string, Entry>): (p: map<string, Entry>)
    ensures forall f :: f in p <==> f in ledger && ledger[f].code != -1
    ensures forall f :: f in p ==> p[f] == ledger[f]
  {
    map f | f in ledger && ledger[f].code != -1 :: ledger[f]
  }

  /** Files of the directory that pass the engine's pattern. */
  function Listed(disk: map<string, DiskFile>, accept: string -> bool): set<string> {
    set f | f in disk && accept(f)
  }

  /** The names the load scans: surviving ledger names and current files. */
  function Scanned(ledger: map<string, Entry>, disk: map<string, DiskFile>, accept: string -> bool): set<string> {
    Pruned(ledger).Keys + Listed(disk, accept)
  }

  /** The entry recorded for one scanned name: the status's stats and code,
      the stored checksum, and a fresh checksum for an added file only;
      None when that checksum cannot be computed. */
  function Refreshed(prev: Option<Entry>, name: string, disk: map<string, DiskFile>,
                     hash: string -> Option<string>): (e: Option<Entry>)
    ensures var s := FileStatus(prev, name, disk, hash);
      e.Some? ==> e.value.stats == s.stats && e.value.code == s.code
    ensures e.Some? && e.value.code != 1 ==> e.value.checksum == (if prev.Some? then prev.value.checksum else None)
    ensures e.Some? && e.value.code == 1 ==> name in disk && e.value.checksum == hash(disk[name].content)
    ensures e.None? <==> name in disk && prev.None? && hash(disk[name].content).None?
  {
    var s := FileStatus(prev, name, disk, hash);
    if s.code != 1 then Some(Entry(s.stats, s.code, if prev.Some? then prev.value.checksum else None))
    else
      match hash(disk[name].content)
      case None => None
      case Some(sum) => Some(Entry(s.stats, 1, Some(sum)))
  }

  /** Whether every scanned name can be recorded. */
  ghost predicate AllRecorded(ledger: map<string, Entry>, disk: map<string, DiskFile>, accept: string -> bool,
                              hash: string -> Option<string>) {
    forall n :: n in Scanned(ledger, disk, accept) ==> Refreshed(Get(Pruned(ledger), n), n, disk, hash).Some?
  }

  /** The ledger a load writes. */
  ghost function NewLedger(ledger: map<string, Entry>, disk: map<string, DiskFile>, accept: string -> bool,
                           hash: string -> Option<string>): (l: map<string, Entry>)
    requires AllRecorded(ledger, disk, accept, hash)
    ensures l.Keys == Scanned(ledger, disk, accept)
  {
    map n | n in Scanned(ledger, disk, accept) :: Refreshed(Get(Pruned(ledger), n), n, disk, hash).value
  }

  /** `load`: prune deleted entries, classify every scanned name, and write
      the new ledger in one step; a checksum failure aborts before the write. */
  method Load(g: Gateway, disk: map<string, DiskFile>, accept: string -> bool, hash: string -> Option<string>)
    returns (r: Result<map<string, Entry>, string>)
    modifies g`ledger, g`writes
    ensures r.Err? <==> !AllRecorded(old(g.ledger), disk, accept, hash)
    ensures r.Ok? ==> r.value == NewLedger(old(g.ledger), disk, accept, hash)
    ensures r.Ok? ==> g.ledger == r.value && g.writes == old(g.writes) + [FilesDoc]
    ensures r.Err? ==> g.ledger == old(g.ledger) && g.writes == old(g.writes)
  {
    var tracked := g.ledger;
    var deleteds := set f | f in tracked && tracked[f].code == -1;
    while deleteds != {}
      invariant deleteds <= tracked.Keys
      invariant forall f :: f in tracked <==> f in old(g.ledger) && (old(g.ledger)[f].code != -1 || f in deleteds)
      invariant forall f :: f in tracked ==> tracked[f] == old(g.ledger)[f]
      invariant forall f :: f in deleteds ==> old(g.ledger)[f].code == -1
      decreases deleteds
    {
      var f :| f in deleteds;
      tracked := map k | k in tracked && k != f :: tracked[k];
      deleteds := deleteds - {f};
    }
    assert tracked == Pruned(old(g.ledger));
    var all := tracked.Keys + Listed(disk, accept);
    var files: map<string, Entry> := map[];
    var todo := all;
    while todo != {}
      invariant todo <= all
      invariant forall n :: n in all - todo ==> Refreshed(Get(tracked, n), n, disk, hash).Some?
      invariant files.Keys == all - todo
      invariant forall n :: n in files ==> files[n] == Refreshed(Get(tracked, n), n, disk, hash).value
      decreases todo
    {
      var n :| n in todo;
      var e := Refreshed(Get(tracked, n), n, disk, hash);
      if e.None? {
        return Err("checksum of " + n + " failed");
      }
      files := files[n := e.value];
      todo := todo - {n};
    }
    g.ledger := files;
    g.writes := g.writes + [FilesDoc];
    return Ok(files);
  }

  /** Every recorded code says what happened to the file: -1 exactly when
      it is gone, 1 exactly when it has no surviving ledger entry, and
      otherwise 0 or 2. */
  lemma LoadCodes(ledger: map<string, Entry>, disk: map<string, DiskFile>, accept: string -> bool,
                  hash: string -> Option<string>)
    requires AllRecorded(ledger, disk, accept, hash)
    ensures var l := NewLedger(ledger, disk, accept, hash);
      forall n :: n in l ==>
        && (l[n].code == -1 <==> n !in disk)
        && (l[n].code == 1 <==> n in disk && n !in Pruned(ledger))
        && -1 <= l[n].code <= 2
  {
    var l := NewLedger(ledger, disk, accept, hash);
    forall n | n in l
      ensures l[n].code == -1 <==> n !in disk
      ensures l[n].code == 1 <==> n in disk && n !in Pruned(ledger)
      ensures -1 <= l[n].code <= 2
    {
      var prev := Get(Pruned(ledger), n);
      var s := FileStatus(prev, n, disk, hash);
      assert l[n].code == s.code;
    }
  }

  /** A file changed since the last load is reported with the checksum
      stored before, not the fresh one, so the next load compares against
      that stored value again. */
  lemma ChangedKeepsStoredChecksum(ledger: map<string, Entry>, disk: map<string, DiskFile>, accept: string -> bool,
                                   hash: string -> Option<string>, n: string)
    requires AllRecorded(ledger, disk, accept, hash)
    requires n in NewLedger(ledger, disk, accept, hash) && NewLedger(ledger, disk, accept, hash)[n].code == 2
    ensures n in ledger && n in disk
    ensures NewLedger(ledger, disk, accept, hash)[n].checksum == ledger[n].checksum
    ensures NewLedger(ledger, disk, accept, hash)[n].checksum != hash(disk[n].content)
  {
    var prev := Get(Pruned(ledger), n);
    var s := FileStatus(prev, n, disk, hash);
    assert s.code == 2;
  }

  /** Loading twice over the same directory: the second load cannot fail,
      drops the files the first one reported deleted, and reports every
      remaining file unchanged with its checksum kept. */
  lemma {:induction false} SecondLoadSettles(ledger: map<string, Entry>, disk: map<string, DiskFile>,
                                              accept: string -> bool, hash: string -> Option<string>)
    requires AllRecorded(ledger, disk, accept, hash)
    ensures var l1 := NewLedger(ledger, disk, accept, hash);
      && AllRecorded(l1, disk, accept, hash)
      && var l2 := NewLedger(l1, disk, accept, hash);
      && (forall n :: n in l2 <==> n in l1 && n in disk)
      && (forall n :: n in l2 ==> l2[n].code == 0 && l2[n].checksum == l1[n].checksum)
  {
    var l1 := NewLedger(ledger, disk, accept, hash);
    LoadCodes(ledger, disk, accept, hash);
    forall n | n in l1 && n in disk
      ensures n in Pruned(l1) && l1[n].stats == Some(StatsOf(disk[n]))
    {
      var s := FileStatus(Get(Pruned(ledger), n), n, disk, hash);
      assert l1[n].stats == s.stats;
    }
    assert Listed(disk, accept) <= l1.Keys;
    assert forall n :: n in Scanned(l1, disk, accept) <==> n in l1 && n in disk;
    forall n | n in Scanned(l1, disk, accept)
      ensures Refreshed(Get(Pruned(l1), n), n, disk, hash).Some?
      ensures Refreshed(Get(Pruned(l1), n), n, disk, hash).value.code == 0
      ensures Refreshed(Get(Pruned(l1), n), n, disk, hash).value.checksum == l1[n].checksum
    {
      assert Get(Pruned(l1), n) == Some(l1[n]);
    }
  }
}
