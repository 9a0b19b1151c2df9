/** The list of remotes a repository pulls from: a name to `{url}` map in
    the remotes file, kept by lib/epm/remote.js for local repositories and
    by lib/repo/remote.js for served ones.  Removing a remote also drops
    its cached manifest. */
module Remotes {
  import opened Wrappers
  import opened Store

  /** A remote's record with its name, as `get` and the `added` event give it. */
  datatype NamedRemote = NamedRemote(name: string, url: string)

  /** `add` on the stored map: an existing name is refused, a new one gets
      `{url}` and nothing else changes. */
  function AddTo(remotes: map<string, Remote>, name: string, url: string): (r: Result<map<string, Remote>, string>)
    ensures r.Err? <==> name in remotes
    ensures r.Err? ==> r.error == "remote `" + name + "` exists"
    ensures r.Ok? ==> r.value.Keys == remotes.Keys + {name} && r.value[name] == Remote(url)
    ensures r.Ok? ==> forall k :: k in remotes ==> r.value[k] == remotes[k]
  {
    if name in remotes then Err("remote `" + name + "` exists")
    else Ok(remotes[name := Remote(url)])
  }

  /** `remove` on the stored map: a missing name is refused, otherwise only
      that name goes. */
  function RemoveFrom(remotes: map<string, Remote>, name: string): (r: Result<map<string, Remote>, string>)
    ensures r.Err? <==> name !in remotes
    ensures r.Err? ==> r.error == "remote `" + name + "` not exists"
    ensures r.Ok? ==> r.value.Keys == remotes.Keys - {name}
    ensures r.Ok? ==> forall k :: k in r.value ==> r.value[k] == remotes[k]
  {
    if name !in remotes then Err("remote `" + name + "` not exists")
    else Ok(remotes - {name})
  }

  /** `get`/`getSync`: a copy of the record with its name added. */
  function Lookup(remotes: map<string, Remote>, name: string): (r: Result<NamedRemote, string>)
    ensures r.Err? <==> name !in remotes
    ensures r.Err? ==> r.error == "remote `" + name + "` not exists"
    ensures r.Ok? ==> r.value.name == name && Remote(r.value.url) == remotes[name]
  {
    if name !in remotes then Err("remote `" + name + "` not exists")
    else Ok(NamedRemote(name, remotes[name].url))
  }

  /** A remote just added is found under its name with its url, and adding
      it again is refused. */
  lemma LookupAfterAdd(remotes: map<string, Remote>, name: string, url: string)
    requires name !in remotes
    ensures Lookup(AddTo(remotes, name, url).value, name) == Ok(NamedRemote(name, url))
    ensures AddTo(AddTo(remotes, name, url).value, name, url).Err?
  {
  }

  /** Removing a remote just added gives back the map it was added to. */
  lemma RemoveUndoesAdd(remotes: map<string, Remote>, name: string, url: string)
    requires name !in remotes
    ensures AddTo(remotes, name, url).Ok?
    ensures RemoveFrom(AddTo(remotes, name, url).value, name) == Ok(remotes)
  {
    assert remotes[name := Remote(url)] - {name} == remotes;
  }

  /** Adding back a remote just removed restores the map, when the url is
      the one it had. */
  lemma AddUndoesRemove(remotes: map<string, Remote>, name: string)
    requires name in remotes
    ensures RemoveFrom(remotes, name).Ok?
    ensures AddTo(RemoveFrom(remotes, name).value, name, remotes[name].url) == Ok(remotes)
  {
    assert (remotes - {name})[name := Remote(remotes[name].url)] == remotes;
  }

  /** What a local repository's remote manager emits. */
  datatype Signal = AddedRemote(added: NamedRemote) | RemovedRemote(removed: Remote)

  /** lib/epm/remote.js, on the repository's file gateway. */
  class EpmRemote {
    const fs: Gateway
    var trace: seq<Signal>

    constructor(fs: Gateway)
      ensures this.fs == fs && trace == []
    {
      this.fs := fs;
      trace := [];
    }

    /** `list`: the stored map as it is. */
    method List() returns (r: map<string, Remote>)
      ensures r == fs.remotes
    {
      r := fs.remotes;
    }

    /** `add`: refuse an existing name without writing; otherwise store
        `{url}`, persist the remotes file once and emit the new record. */
    method Add(name: string, url: string) returns (r: Result<map<string, Remote>, string>)
      modifies fs`remotes, fs`writes, this`trace
      ensures r == AddTo(old(fs.remotes), name, url)
      ensures r.Err? ==> fs.remotes == old(fs.remotes) && fs.writes == old(fs.writes) && trace == old(trace)
      ensures r.Ok? ==>
        fs.remotes == r.value && fs.writes == old(fs.writes) + [RemotesDoc]
        && trace == old(trace) + [AddedRemote(NamedRemote(name, url))]
    {
      var remotes := fs.remotes;
      if name in remotes {
        return Err("remote `" + name + "` exists");
      }
      remotes := remotes[name := Remote(url)];
      fs.remotes := remotes;
      fs.writes := fs.writes + [RemotesDoc];
      trace := trace + [AddedRemote(NamedRemote(name, url))];
      r := Ok(remotes);
    }

    /** `remove` as written: the deletion reads `ops.name`, and no `ops` is
        in scope, so removing a registered remote throws before anything
        changes. */
    method RemoveAsWritten(name: string) returns (r: Js<Result<map<string, Remote>, string>>)
      modifies fs`remotes, fs`manifests, fs`writes, this`trace
      ensures name !in old(fs.remotes) ==> r == Returned(Err("remote `" + name + "` not exists"))
      ensures name in old(fs.remotes) ==> r == Threw("ops is not defined")
      ensures fs.remotes == old(fs.remotes) && fs.manifests == old(fs.manifests)
      ensures fs.writes == old(fs.writes) && trace == old(trace)
    {
      if name !in fs.remotes {
        return Returned(Err("remote `" + name + "` not exists"));
      }
      return Threw("ops is not defined");
    }

    /** `remove` as evidently intended: drop the name and its cached
        manifest, persist the remotes file once and emit the old record. */
    method Remove(name: string) returns (r: Result<map<string, Remote>, string>)
      modifies fs`remotes, fs`manifests, fs`writes, this`trace
      ensures r == RemoveFrom(old(fs.remotes), name)
      ensures r.Err? ==>
        fs.remotes == old(fs.remotes) && fs.manifests == old(fs.manifests)
        && fs.writes == old(fs.writes) && trace == old(trace)
      ensures r.Ok? ==>
        fs.remotes == r.value && fs.manifests == old(fs.manifests) - {name}
        && fs.writes == old(fs.writes) + [RemotesDoc] && trace == old(trace) + [RemovedRemote(old(fs.remotes)[name])]
    {
      var remotes := fs.remotes;
      if name !in remotes {
        return Err("remote `" + name + "` not exists");
      }
      var record := remotes[name];
      remotes := remotes - {name};
      if name in fs.manifests {
        fs.manifests := fs.manifests - {name};
      }
      fs.remotes := remotes;
      fs.writes := fs.writes + [RemotesDoc];
      trace := trace + [RemovedRemote(record)];
      r := Ok(remotes);
    }

    /** `get`: the record with its name, or an error for a missing name. */
    function Get(name: string): (r: Result<NamedRemote, string>)
      reads fs
      ensures r.Ok? <==> name in fs.remotes
      ensures r.Ok? ==> r.value.name == name && r.value.url == fs.remotes[name].url
    {
      Lookup(fs.remotes, name)
    }

    /** `getSync`: the same, throwing on a missing name. */
    function GetSync(name: string): (r: Js<NamedRemote>)
      reads fs
      ensures r.Threw? <==> name !in fs.remotes
      ensures r.Returned? ==> Ok(r.value) == Get(name)
    {
      match Lookup(fs.remotes, name)
      case Err(e) => Threw(e)
      case Ok(v) => Returned(v)
    }

    /** `existsSync`. */
    predicate ExistsSync(name: string)
      reads fs
      ensures ExistsSync(name) <==> Get(name).Ok?
    {
      name in fs.remotes
    }
  }

  /** lib/repo/remote.js `list`. */
  method List(g: Gateway) returns (r: map<string, Remote>)
    ensures r == g.remotes
  {
    r := g.remotes;
  }

  /** lib/repo/remote.js `add`: the error path calls an undefined `fn`, so
      an existing name throws before any write. */
  method Add(g: Gateway, name: string, url: string) returns (r: Js<map<string, Remote>>)
    modifies g`remotes, g`writes
    ensures name in old(g.remotes) ==>
      r == Threw("fn is not defined") && g.remotes == old(g.remotes) && g.writes == old(g.writes)
    ensures name !in old(g.remotes) ==>
      r == Returned(AddTo(old(g.remotes), name, url).value) && g.remotes == r.value
      && g.writes == old(g.writes) + [RemotesDoc]
  {
    var remotes := g.remotes;
    if name in remotes {
      return Threw("fn is not defined");
    }
    remotes := remotes[name := Remote(url)];
    g.remotes := remotes;
    g.writes := g.writes + [RemotesDoc];
    r := Returned(remotes);
  }

  /** lib/repo/remote.js `remove`: a missing name throws the same way;
      otherwise the name and its cached manifest go and the file is
      persisted. */
  method Remove(g: Gateway, name: string) returns (r: Js<map<string, Remote>>)
    modifies g`remotes, g`manifests, g`writes
    ensures name !in old(g.remotes) ==>
      r == Threw("fn is not defined") && g.remotes == old(g.remotes)
      && g.manifests == old(g.manifests) && g.writes == old(g.writes)
    ensures name in old(g.remotes) ==>
      r == Returned(RemoveFrom(old(g.remotes), name).value) && g.remotes == r.value
      && g.manifests == old(g.manifests) - {name} && g.writes == old(g.writes) + [RemotesDoc]
  {
    var remotes := g.remotes;
    if name !in remotes {
      return Threw("fn is not defined");
    }
    remotes := remotes - {name};
    if name in g.manifests {
      g.manifests := g.manifests - {name};
    }
    g.remotes := remotes;
    g.writes := g.writes + [RemotesDoc];
    r := Returned(remotes);
  }
}
