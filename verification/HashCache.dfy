// The cache of file hashes, keyed by path and guarded by modification time and size, while
// other programs write the files.

module HashCache {
  import opened Text
  import opened Files

  type Path = string

  datatype Task = Task(id: nat)

  datatype Meta = Meta(modified: int, size: nat)

  datatype Version = Version(meta: Meta, bytes: Bytes)

  datatype FileEntry = FileEntry(meta: Meta, hash: Hash)

  // get_hash, await point by await point. A read that started at version number `begin` ends
  // with the hash of that version, or with anything if the file was written meanwhile.
  datatype Pc = HasMeta(path: Path, meta: Meta) | Missed(path: Path, meta: Meta)
              | Reading(path: Path, meta: Meta, begin: nat) | HasHash(path: Path, meta: Meta, hash: Hash)

  // Every version a path ever had, the last one being current while the path is present.
  datatype State = State(versions: map<Path, seq<Version>>, present: set<Path>, cache: map<Path, FileEntry>, tasks: map<Task, Pc>)

  const INITIAL := State(map[], {}, map[], map[])

  datatype Event = Write(path: Path, version: Version) | Delete(path: Path)
                 | Stat(t: Task, path: Path) | Lookup(t: Task) | BeginRead(t: Task) | EndRead(t: Task, hash: Hash) | Insert(t: Task)
                 | Drop(t: Task) | Clear

  function Versions(s: State, path: Path): seq<Version>
  {
    if path in s.versions then s.versions[path] else []
  }

  predicate Present(s: State, path: Path) { path in s.present && Versions(s, path) != [] }

  function Current(s: State, path: Path): Version
    requires Present(s, path)
  {
    s.versions[path][|s.versions[path]| - 1]
  }

  // A write never repeats the modification time and size of an earlier version of the file.
  predicate Fresh(s: State, path: Path, meta: Meta)
  {
    forall i :: 0 <= i < |Versions(s, path)| ==> Versions(s, path)[i].meta != meta
  }

  predicate Matches(cache: map<Path, FileEntry>, path: Path, meta: Meta) { path in cache && cache[path].meta == meta }

  predicate Enabled(s: State, e: Event)
  {
    match e
    case Write(path, version) => Fresh(s, path, version.meta)
    case Delete(path) => true
    case Stat(t, path) => t !in s.tasks && Present(s, path)
    case Lookup(t) => t in s.tasks && s.tasks[t].HasMeta?
    case BeginRead(t) => t in s.tasks && s.tasks[t].Missed? && Present(s, s.tasks[t].path)
    case EndRead(t, hash) =>
      t in s.tasks && s.tasks[t].Reading? &&
      var versions := Versions(s, s.tasks[t].path);
      |versions| == s.tasks[t].begin && versions != [] ==> hash == HashOf(versions[|versions| - 1].bytes)
    case Insert(t) => t in s.tasks && s.tasks[t].HasHash?
    case Drop(t) => t in s.tasks
    case Clear => true
  }

  function Step(s: State, e: Event): State
    requires Enabled(s, e)
  {
    match e
    case Write(path, version) => s.(versions := s.versions[path := Versions(s, path) + [version]], present := s.present + {path})
    case Delete(path) => s.(present := s.present - {path})
    case Stat(t, path) => s.(tasks := s.tasks[t := HasMeta(path, Current(s, path).meta)])
    case Lookup(t) =>
      var pc := s.tasks[t];
      if Matches(s.cache, pc.path, pc.meta) then s.(tasks := s.tasks - {t}) else s.(tasks := s.tasks[t := Missed(pc.path, pc.meta)])
    case BeginRead(t) =>
      var pc := s.tasks[t];
      s.(tasks := s.tasks[t := Reading(pc.path, pc.meta, |Versions(s, pc.path)|)])
    case EndRead(t, hash) => s.(tasks := s.tasks[t := HasHash(s.tasks[t].path, s.tasks[t].meta, hash)])
    case Insert(t) =>
      var pc := s.tasks[t];
      s.(cache := s.cache[pc.path := FileEntry(pc.meta, pc.hash)], tasks := s.tasks - {t})
    case Drop(t) => s.(tasks := s.tasks - {t})
    case Clear => s.(cache := map[])
  }

  // ---------- the program ----------

  class FileSystemIndex {
    var keyspace: map<Path, FileEntry>

    constructor ()
      ensures keyspace == INITIAL.cache
    {
      keyspace := map[];
    }

    method GetHashFromDb(path: Path, meta: Meta) returns (hash: Option<Hash>)
      ensures hash == if Matches(keyspace, path, meta) then Some(keyspace[path].hash) else None
    {
      if path in keyspace {
        var entry := keyspace[path];
        if entry.meta.modified == meta.modified && entry.meta.size == meta.size { return Some(entry.hash); }
      }
      hash := None;
    }

    method InsertHashIntoDb(path: Path, hash: Hash, meta: Meta)
      modifies this
      ensures keyspace == old(keyspace)[path := FileEntry(meta, hash)]
    {
      keyspace := keyspace[path := FileEntry(meta, hash)];
    }

    // get_hash while nobody writes: None when the file does not exist.
    method GetHash(files: map<Path, Version>, path: Path) returns (hash: Option<Hash>)
      requires forall p :: p in files ==> Right(keyspace, p, files[p])
      modifies this
      ensures forall p :: p in files ==> Right(keyspace, p, files[p])
      ensures hash == if path in files then Some(HashOf(files[path].bytes)) else None
      ensures path in files ==> Matches(keyspace, path, files[path].meta)
    {
      if path !in files { return None; }
      var meta := files[path].meta;
      hash := GetHashFromDb(path, meta);
      if hash.Some? { return; }
      hash := Some(HashOf(files[path].bytes));
      InsertHashIntoDb(path, hash.value, meta);
    }
  }

  predicate Right(cache: map<Path, FileEntry>, path: Path, v: Version)
  {
    Matches(cache, path, v.meta) ==> cache[path].hash == HashOf(v.bytes)
  }

  // ---------- invariant ----------

  // The number of the version that has this metadata, while it is the last one.
  predicate IsLast(s: State, path: Path, meta: Meta)
  {
    var versions := Versions(s, path);
    versions != [] && versions[|versions| - 1].meta == meta
  }

  predicate Known(s: State, path: Path, meta: Meta)
  {
    exists i :: 0 <= i < |Versions(s, path)| && Versions(s, path)[i].meta == meta
  }

  // As long as the metadata a task took is that of the last version, nothing was written since.
  predicate TaskOk(s: State, pc: Pc)
  {
    && Known(s, pc.path, pc.meta)
    && (IsLast(s, pc.path, pc.meta) ==>
          match pc
          case Reading(path, _, begin) => begin == |Versions(s, path)|
          case HasHash(path, _, hash) => hash == HashOf(Versions(s, path)[|Versions(s, path)| - 1].bytes)
          case _ => true)
    && (pc.Reading? ==> pc.begin <= |Versions(s, pc.path)|)
  }

  predicate EntryOk(s: State, path: Path)
    requires path in s.cache
  {
    && Known(s, path, s.cache[path].meta)
    && (IsLast(s, path, s.cache[path].meta) ==> s.cache[path].hash == HashOf(Versions(s, path)[|Versions(s, path)| - 1].bytes))
  }

  predicate Inv(s: State)
  {
    && (forall path :: path in s.cache ==> EntryOk(s, path))
    && (forall t :: t in s.tasks ==> TaskOk(s, s.tasks[t]))
  }

  // A fresh version makes all metadata taken earlier stale for good.
  lemma WriteStale(s: State, path: Path, version: Version, other: Path, meta: Meta)
    requires Enabled(s, Write(path, version)) && Known(s, other, meta)
    ensures var after := Step(s, Write(path, version));
      && Known(after, other, meta)
      && (other == path ==> !IsLast(after, other, meta))
      && (other != path ==> Versions(after, other) == Versions(s, other))
  {
    var after := Step(s, Write(path, version));
    var i :| 0 <= i < |Versions(s, other)| && Versions(s, other)[i].meta == meta;
    assert Versions(after, other)[i].meta == meta;
  }

  lemma WriteKeeps(s: State, path: Path, version: Version)
    requires Inv(s) && Enabled(s, Write(path, version))
    ensures Inv(Step(s, Write(path, version)))
  {
    var after := Step(s, Write(path, version));
    forall other | other in after.cache ensures EntryOk(after, other) {
      assert EntryOk(s, other);
      WriteStale(s, path, version, other, s.cache[other].meta);
    }
    forall t | t in after.tasks ensures TaskOk(after, after.tasks[t]) {
      assert TaskOk(s, s.tasks[t]);
      WriteStale(s, path, version, s.tasks[t].path, s.tasks[t].meta);
    }
  }

  lemma TaskKeeps(s: State, e: Event, t: Task)
    requires Inv(s) && Enabled(s, e) && (e == Lookup(t) || e == BeginRead(t) || e == Drop(t) || (e.Stat? && e.t == t) || (e.EndRead? && e.t == t))
    ensures Inv(Step(s, e))
  {
    var after := Step(s, e);
    if t in s.tasks { assert TaskOk(s, s.tasks[t]); }
    if t in after.tasks { MovedTask(s, e, t); }
    forall u | u in after.tasks ensures TaskOk(after, after.tasks[u]) {
      if u != t { assert TaskOk(s, s.tasks[u]); SameFiles(s, after, s.tasks[u]); }
    }
    forall path | path in after.cache ensures EntryOk(after, path) { SameEntry(s, after, path); }
  }

  lemma SameFiles(s: State, after: State, pc: Pc)
    requires after.versions == s.versions && TaskOk(s, pc)
    ensures TaskOk(after, pc)
  {
    SameKnown(s, after, pc.path, pc.meta);
  }

  lemma SameKnown(s: State, after: State, path: Path, meta: Meta)
    requires after.versions == s.versions
    ensures Known(after, path, meta) == Known(s, path, meta) && Versions(after, path) == Versions(s, path)
  {
    assert Versions(after, path) == Versions(s, path);
  }

  lemma SameEntry(s: State, after: State, path: Path)
    requires after.versions == s.versions && path in s.cache && path in after.cache && after.cache[path] == s.cache[path] && EntryOk(s, path)
    ensures EntryOk(after, path)
  {
    SameKnown(s, after, path, s.cache[path].meta);
  }

  lemma MovedTask(s: State, e: Event, t: Task)
    requires Inv(s) && Enabled(s, e) && (e == Lookup(t) || e == BeginRead(t) || (e.Stat? && e.t == t) || (e.EndRead? && e.t == t))
    requires t in Step(s, e).tasks
    ensures TaskOk(Step(s, e), Step(s, e).tasks[t])
  {
    var after := Step(s, e);
    if e.Stat? {
      var versions := Versions(s, e.path);
      assert Versions(after, e.path)[|versions| - 1].meta == Current(s, e.path).meta;
    } else {
      assert TaskOk(s, s.tasks[t]);
      SameKnown(s, after, s.tasks[t].path, s.tasks[t].meta);
    }
  }

  lemma InsertKeeps(s: State, t: Task)
    requires Inv(s) && Enabled(s, Insert(t))
    ensures Inv(Step(s, Insert(t)))
  {
    var after := Step(s, Insert(t));
    assert TaskOk(s, s.tasks[t]);
    forall path | path in after.cache ensures EntryOk(after, path) {
      if path != s.tasks[t].path { SameEntry(s, after, path); } else { SameKnown(s, after, path, s.tasks[t].meta); }
    }
    forall u | u in after.tasks ensures TaskOk(after, after.tasks[u]) { assert TaskOk(s, s.tasks[u]); SameFiles(s, after, s.tasks[u]); }
  }

  lemma StepKeeps(s: State, e: Event)
    requires Inv(s) && Enabled(s, e)
    ensures Inv(Step(s, e))
  {
    match e
    case Write(path, version) => WriteKeeps(s, path, version);
    case Insert(t) => InsertKeeps(s, t);
    case Stat(t, _) => TaskKeeps(s, e, t);
    case Lookup(t) => TaskKeeps(s, e, t);
    case BeginRead(t) => TaskKeeps(s, e, t);
    case EndRead(t, _) => TaskKeeps(s, e, t);
    case Drop(t) => TaskKeeps(s, e, t);
    case Delete(_) =>
      var after := Step(s, e);
      forall path | path in after.cache ensures EntryOk(after, path) { SameEntry(s, after, path); }
      forall t | t in after.tasks ensures TaskOk(after, after.tasks[t]) { assert TaskOk(s, s.tasks[t]); SameFiles(s, after, s.tasks[t]); }
    case Clear =>
      var after := Step(s, e);
      forall t | t in after.tasks ensures TaskOk(after, after.tasks[t]) { assert TaskOk(s, s.tasks[t]); SameFiles(s, after, s.tasks[t]); }
  }

  // ---------- runs ----------

  predicate Valid(s: State, events: seq<Event>)
    decreases |events|
  {
    events == [] || (Enabled(s, events[0]) && Valid(Step(s, events[0]), events[1..]))
  }

  function Run(s: State, events: seq<Event>): State
    requires Valid(s, events)
    decreases |events|
  {
    if events == [] then s else Run(Step(s, events[0]), events[1..])
  }

  lemma {:induction false} RunKeeps(s: State, events: seq<Event>)
    requires Inv(s) && Valid(s, events)
    ensures Inv(Run(s, events))
    decreases |events|
  {
    if events != [] {
      StepKeeps(s, events[0]);
      RunKeeps(Step(s, events[0]), events[1..]);
    }
  }

  // For every interleaving of writes with the steps of any number of get_hash calls, torn reads
  // included, an entry that matches the current metadata of a file holds the hash of its
  // current content; so the next lookup cannot return anything else.
  lemma CacheAgrees(events: seq<Event>, path: Path)
    requires Valid(INITIAL, events) && Present(Run(INITIAL, events), path)
    ensures var s := Run(INITIAL, events); Right(s.cache, path, Current(s, path))
  {
    RunKeeps(INITIAL, events);
    var s := Run(INITIAL, events);
    if Matches(s.cache, path, Current(s, path).meta) { assert EntryOk(s, path); }
  }

  // What get_hash returns from the cache: it returns at once exactly when the entry has the
  // metadata it took, and that entry has the hash of the version this metadata belongs to as long
  // as the file has not been written since.
  lemma HitReturns(events: seq<Event>, t: Task)
    requires Valid(INITIAL, events) && Enabled(Run(INITIAL, events), Lookup(t))
    ensures var s := Run(INITIAL, events); var pc := s.tasks[t];
      && (t !in Step(s, Lookup(t)).tasks <==> pc.path in s.cache && s.cache[pc.path].meta == pc.meta)
      && (t in Step(s, Lookup(t)).tasks ==> Step(s, Lookup(t)).tasks[t] == Missed(pc.path, pc.meta))
      && (t !in Step(s, Lookup(t)).tasks && IsLast(s, pc.path, pc.meta) ==>
            s.cache[pc.path].hash == HashOf(Versions(s, pc.path)[|Versions(s, pc.path)| - 1].bytes))
  {
    RunKeeps(INITIAL, events);
    var s := Run(INITIAL, events);
    var pc := s.tasks[t];
    if pc.path in s.cache { assert EntryOk(s, pc.path); }
  }

  // What it returns after reading: the hash of the last version, if nothing was written since it
  // took the metadata; that hash is what the cache gets.
  lemma ReadReturns(events: seq<Event>, t: Task)
    requires Valid(INITIAL, events) && Enabled(Run(INITIAL, events), Insert(t))
    ensures var s := Run(INITIAL, events); var pc := s.tasks[t];
      && (IsLast(s, pc.path, pc.meta) ==> pc.hash == HashOf(Versions(s, pc.path)[|Versions(s, pc.path)| - 1].bytes))
      && Step(s, Insert(t)).cache == s.cache[pc.path := FileEntry(pc.meta, pc.hash)]
  {
    RunKeeps(INITIAL, events);
    assert TaskOk(Run(INITIAL, events), Run(INITIAL, events).tasks[t]);
  }
}
