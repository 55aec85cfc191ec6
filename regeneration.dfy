/**
  One run of `writeThemeJS` as a function of the registry and the files it
  reads: the sources are visited one after the other in the order they were
  registered; each is compared with its stored bytes, re-parsed, backfilled
  and written back when that created ids; the artifact is written at the end
  when some source changed and no source's step threw.

  Each source's step runs inside its own promise executor, which `map` calls
  synchronously: an exception rejects only that promise, the next source is
  still visited, and the rejection of `Promise.all` skips the artifact.
 */
module Regeneration {
  import opened Wrappers
  import opened Json
  import opened Files
  import opened IdBackfill
  import Artifact

  /** The collaborators the run calls but does not define. */
  datatype Host = Host(
    // `JSON.parse(buffer.toString('utf-8'))`; None when it throws
    parse: Bytes -> Option<Value>,
    // `JSON.stringify(value, null, 2)`
    stringify: Value -> string,
    // the bytes `fs.writeFileSync` stores for a string
    encode: string -> Bytes,
    // `themeProcessor`, which merges the parsed sources into the theme; None
    // when it throws
    process: map<string, Value> -> Option<Value>)

  /** What the constructor fixed: the source names in registration order,
      their resolved paths, the resolved output path and the output format. */
  datatype Setup = Setup(order: seq<string>, paths: map<string, Path>, output: Path, isTypescript: bool)

  /** The state a run threads through the sources: the files, the registry
      (`themeFileBuffers`, `themeJSONData`), the `didChange` flag, whether
      some source's promise rejected, how many ids have been created, and the
      paths written so far in this run. */
  datatype Pass = Pass(
    files: map<Path, Bytes>,
    buffers: map<string, Bytes>,
    data: map<string, Value>,
    didChange: bool,
    rejected: bool,
    issued: nat,
    writes: seq<Path>)

  /** Every registered name has a path, a stored buffer and a stored value. */
  predicate Fits(setup: Setup, buffers: map<string, Bytes>, data: map<string, Value>)
  {
    forall k <- setup.order :: k in setup.paths && k in buffers && k in data
  }

  /** The paths of the sources named in `keys`. */
  function PathsOf(keys: seq<string>, paths: map<string, Path>): set<Path>
  {
    set k | k in keys && k in paths :: paths[k]
  }

  /** The paths of the registered sources. */
  function SourcePaths(setup: Setup): set<Path>
  {
    PathsOf(setup.order, setup.paths)
  }

  /** The file at `path` is missing or holds exactly the bytes stored for `key`. */
  predicate Synced(files: map<Path, Bytes>, buffers: map<string, Bytes>, key: string, path: Path)
    requires key in buffers
  {
    path !in files || files[path] == buffers[key]
  }

  /** The freshly read bytes of `path` differ from the bytes stored for `key`. */
  predicate Changed(p: Pass, key: string, path: Path)
    requires key in p.buffers
  {
    path in p.files && p.files[path] != p.buffers[key]
  }

  /** The walk the backfill makes over a changed source that parsed. */
  function WalkOf(p: Pass, key: string, path: Path, host: Host, uuid: nat -> string): Walk
    requires key in p.buffers && Changed(p, key, path) && host.parse(p.files[path]).Some?
  {
    Backfill(host.parse(p.files[path]).value, uuid, p.issued)
  }

  /** The body of the promise executor for source `key` at `path`. */
  function VisitSource(p: Pass, key: string, path: Path, host: Host, uuid: nat -> string): (r: Pass)
    requires key in p.buffers && key in p.data
    // the stored buffer is always left holding the bytes just read
    ensures r.buffers == if path in p.files then p.buffers[key := p.files[path]] else p.buffers
    // a source whose bytes equal the stored ones changes nothing
    ensures !Changed(p, key, path) ==> r == p.(rejected := p.rejected || path !in p.files)
    // only this source's parsed value can change
    ensures r.data.Keys == p.data.Keys && r.data == p.data[key := r.data[key]]
    ensures r.didChange == (p.didChange || (Changed(p, key, path) && host.parse(p.files[path]).Some?))
    // bytes that do not parse keep the old value and reject the run
    ensures Changed(p, key, path) && host.parse(p.files[path]).None? ==> r.data == p.data && r.rejected
    // bytes that parse are stored as the value after the backfill
    ensures Changed(p, key, path) && host.parse(p.files[path]).Some? ==>
              r.data[key] == WalkOf(p, key, path, host, uuid).value
    ensures r.rejected == (p.rejected || path !in p.files ||
              (Changed(p, key, path) &&
               (host.parse(p.files[path]).None? || WalkOf(p, key, path, host, uuid).failed)))
    // the source is written back, with the backfilled value, exactly when an id was created
    ensures r.writes == p.writes ==> r.files == p.files
    ensures r.writes != p.writes ==>
              r.writes == p.writes + [path] && r.files == p.files[path := host.encode(host.stringify(r.data[key]))]
    ensures r.writes != p.writes <==>
              Changed(p, key, path) && host.parse(p.files[path]).Some? &&
              !WalkOf(p, key, path, host, uuid).failed && WalkOf(p, key, path, host, uuid).created
    ensures r.files.Keys == p.files.Keys
    ensures r.issued >= p.issued
  {
    if path !in p.files then p.(rejected := true)
    else if p.files[path] == p.buffers[key] then p
    else
      var bytes := p.files[path];
      var p1 := p.(buffers := p.buffers[key := bytes]);
      match host.parse(bytes)
      case None => p1.(rejected := true)
      case Some(parsed) =>
        var w := Backfill(parsed, uuid, p.issued);
        var p2 := p1.(data := p.data[key := w.value], didChange := true, issued := w.issued);
        if w.failed then p2.(rejected := true)
        else if w.created then
          p2.(files := p.files[path := host.encode(host.stringify(w.value))], writes := p.writes + [path])
        else p2
  }

  /** The executors of `keys`, one after the other. */
  function VisitAll(p: Pass, keys: seq<string>, paths: map<string, Path>, host: Host, uuid: nat -> string): (r: Pass)
    requires forall k <- keys :: k in paths && k in p.buffers && k in p.data
    ensures r.buffers.Keys == p.buffers.Keys && r.data.Keys == p.data.Keys && r.files.Keys == p.files.Keys
    ensures p.didChange ==> r.didChange
    ensures p.rejected ==> r.rejected
    ensures r.issued >= p.issued
    // at most one write per source
    ensures p.writes <= r.writes && |r.writes| <= |p.writes| + |keys|
    decreases |keys|
  {
    if keys == [] then p
    else
      var q := VisitSource(p, keys[0], paths[keys[0]], host, uuid);
      VisitAll(q, keys[1..], paths, host, uuid)
  }

  /** A run over `keys` is the first key's executor followed by the run
      over the rest. */
  lemma VisitAllUnfolds(p: Pass, keys: seq<string>, paths: map<string, Path>, host: Host, uuid: nat -> string)
    requires keys != []
    requires forall k <- keys :: k in paths && k in p.buffers && k in p.data
    ensures var q := VisitSource(p, keys[0], paths[keys[0]], host, uuid);
            && (forall k <- keys[1..] :: k in paths && k in q.buffers && k in q.data)
            && VisitAll(p, keys, paths, host, uuid) == VisitAll(q, keys[1..], paths, host, uuid)
  {
    assert forall k <- keys[1..] :: k in keys;
  }

  /** The text of the artifact the run writes from `data`, or None when
      `themeProcessor` throws on it. */
  function ArtifactBytes(setup: Setup, data: map<string, Value>, host: Host): (r: Option<Bytes>)
    ensures r.Some? <==> host.process(data).Some?
  {
    match host.process(data)
    case None => None
    case Some(theme) => Some(host.encode(Artifact.ArtifactText(host.stringify(theme), setup.isTypescript)))
  }

  /** Lines 101-108, after the executors: if some source changed and none
      threw, `themeProcessor` builds the theme from all parsed values and the
      artifact is written; a throw of `themeProcessor` rejects the run
      instead. */
  function Finish(setup: Setup, p: Pass, host: Host): (r: Pass)
    ensures r.buffers == p.buffers && r.data == p.data && r.didChange == p.didChange && r.issued == p.issued
    ensures r.rejected == (p.rejected || (p.didChange && host.process(p.data).None?))
    ensures r.writes == if p.didChange && !r.rejected then p.writes + [setup.output] else p.writes
    ensures p.didChange && !r.rejected ==> ArtifactBytes(setup, p.data, host).Some?
    ensures r.files == if p.didChange && !r.rejected then p.files[setup.output := ArtifactBytes(setup, p.data, host).value] else p.files
  {
    if p.didChange && !p.rejected then
      match ArtifactBytes(setup, p.data, host)
      case None => p.(rejected := true)
      case Some(bytes) => p.(files := p.files[setup.output := bytes], writes := p.writes + [setup.output])
    else p
  }

  /** `writeThemeJS`: every source is visited in registration order, with no
      id created yet and nothing written; then the run finishes as `Finish`
      says. */
  function Regenerate(setup: Setup, buffers: map<string, Bytes>, data: map<string, Value>,
                      files: map<Path, Bytes>, host: Host, uuid: nat -> string): (r: Pass)
    requires Fits(setup, buffers, data)
    ensures r.buffers.Keys == buffers.Keys && r.data.Keys == data.Keys
    ensures |r.writes| <= |setup.order| + 1
  {
    Finish(setup, VisitAll(Pass(files, buffers, data, false, false, 0, []), setup.order, setup.paths, host, uuid), host)
  }

  lemma {:induction false} VisitAllQuiet(p: Pass, keys: seq<string>, paths: map<string, Path>, host: Host, uuid: nat -> string)
    requires forall k <- keys :: k in paths && k in p.buffers && k in p.data
    requires forall k <- keys :: Synced(p.files, p.buffers, k, paths[k])
    ensures var r := VisitAll(p, keys, paths, host, uuid); r == p.(rejected := r.rejected)
    decreases |keys|
  {
    if keys != [] {
      var q := VisitSource(p, keys[0], paths[keys[0]], host, uuid);
      assert forall k <- keys[1..] :: k in keys;
      VisitAllQuiet(q, keys[1..], paths, host, uuid);
    }
  }

  /** A run in which every source reads back the bytes stored for it (or
      cannot be read) writes nothing, neither a source nor the artifact,
      creates no id and leaves the registry as it was. */
  lemma QuietRunWritesNothing(setup: Setup, buffers: map<string, Bytes>, data: map<string, Value>,
                              files: map<Path, Bytes>, host: Host, uuid: nat -> string)
    requires Fits(setup, buffers, data)
    requires forall k <- setup.order :: Synced(files, buffers, k, setup.paths[k])
    ensures var r := Regenerate(setup, buffers, data, files, host, uuid);
            && r.writes == [] && r.files == files && r.buffers == buffers && r.data == data
            && !r.didChange && r.issued == 0
  {
    VisitAllQuiet(Pass(files, buffers, data, false, false, 0, []), setup.order, setup.paths, host, uuid);
  }

  /** Every write from position `from` on went to a path in `allowed`. */
  predicate WrittenWithin(writes: seq<Path>, from: nat, allowed: set<Path>)
  {
    forall i :: from <= i < |writes| ==> writes[i] in allowed
  }

  /** The executors of `keys` write only to the files of `keys`. */
  lemma {:induction false} VisitAllWritesOwnPaths(p: Pass, keys: seq<string>, paths: map<string, Path>, host: Host, uuid: nat -> string)
    requires forall k <- keys :: k in paths && k in p.buffers && k in p.data
    ensures WrittenWithin(VisitAll(p, keys, paths, host, uuid).writes, |p.writes|, PathsOf(keys, paths))
    decreases |keys|
  {
    if keys != [] {
      var q := VisitSource(p, keys[0], paths[keys[0]], host, uuid);
      var rest := keys[1..];
      assert forall k <- rest :: k in paths && k in q.buffers && k in q.data;
      assert WrittenWithin(q.writes, |p.writes|, {paths[keys[0]]});
      VisitAllWritesOwnPaths(q, rest, paths, host, uuid);
      PathsOfCons(keys, paths);
      WrittenWithinJoin(q.writes, VisitAll(q, rest, paths, host, uuid).writes, |p.writes|,
                        {paths[keys[0]]}, PathsOf(rest, paths), PathsOf(keys, paths));
    }
  }

  /** The paths of `keys` are those of its first key and of the rest. */
  lemma PathsOfCons(keys: seq<string>, paths: map<string, Path>)
    requires keys != [] && keys[0] in paths
    ensures {paths[keys[0]]} + PathsOf(keys[1..], paths) <= PathsOf(keys, paths)
  {
    assert keys[0] in keys;
    forall x | x in PathsOf(keys[1..], paths)
      ensures x in PathsOf(keys, paths)
    {
      var k :| k in keys[1..] && k in paths && paths[k] == x;
      assert k in keys;
    }
  }

  /** Writes within `x` up to the end of `a`, then within `y` after it, are
      writes within `z` when `z` holds both. */
  lemma WrittenWithinJoin(a: seq<Path>, b: seq<Path>, from: nat, x: set<Path>, y: set<Path>, z: set<Path>)
    requires a <= b && from <= |a|
    requires WrittenWithin(a, from, x) && WrittenWithin(b, |a|, y) && x + y <= z
    ensures WrittenWithin(b, from, z)
  {
    forall i | from <= i < |b|
      ensures b[i] in z
    {
      if i < |a| {
        assert b[i] == a[i];
      }
    }
  }

  /** When the output path is not a source path, the artifact is written
      exactly when some source changed, no executor threw and
      `themeProcessor` returned, as the last write of the run, and it is
      built from the registry's values for every source, changed or not. The
      run rejects exactly when an executor threw, or when some source changed
      and `themeProcessor` threw. */
  lemma ArtifactWrittenIffChangedAndResolved(setup: Setup, buffers: map<string, Bytes>, data: map<string, Value>,
                                             files: map<Path, Bytes>, host: Host, uuid: nat -> string)
    requires Fits(setup, buffers, data)
    requires setup.output !in SourcePaths(setup)
    ensures var r := Regenerate(setup, buffers, data, files, host, uuid);
            var p := VisitAll(Pass(files, buffers, data, false, false, 0, []), setup.order, setup.paths, host, uuid);
            && (setup.output in r.writes <==> r.didChange && !r.rejected)
            && (r.rejected <==> p.rejected || (p.didChange && host.process(p.data).None?))
            && (r.didChange && !r.rejected ==>
                  r.writes[|r.writes| - 1] == setup.output
                  && ArtifactBytes(setup, r.data, host).Some?
                  && r.files[setup.output] == ArtifactBytes(setup, r.data, host).value)
  {
    var p0 := Pass(files, buffers, data, false, false, 0, []);
    VisitAllWritesOwnPaths(p0, setup.order, setup.paths, host, uuid);
    var p := VisitAll(p0, setup.order, setup.paths, host, uuid);
    assert WrittenWithin(p.writes, 0, SourcePaths(setup));
    assert setup.output !in p.writes;
  }

  lemma {:induction false} VisitAllIsolates(p: Pass, keys: seq<string>, paths: map<string, Path>, host: Host,
                                            uuid: nat -> string, key: string)
    requires forall k <- keys :: k in paths && k in p.buffers && k in p.data
    requires key in paths && key in p.buffers && key in p.data
    requires forall k <- keys :: k == key || paths[k] != paths[key]
    requires paths[key] in p.files && p.files[paths[key]] == p.buffers[key]
    ensures var r := VisitAll(p, keys, paths, host, uuid);
            && r.buffers[key] == p.buffers[key] && r.data[key] == p.data[key]
            && paths[key] in r.files && r.files[paths[key]] == p.files[paths[key]]
    decreases |keys|
  {
    if keys != [] {
      var q := VisitSource(p, keys[0], paths[keys[0]], host, uuid);
      assert forall k <- keys[1..] :: k in keys;
      VisitAllIsolates(q, keys[1..], paths, host, uuid, key);
    }
  }

  /** A source whose file holds the bytes stored for it, and which shares its
      file with no other source, keeps its stored bytes, its parsed value and
      its file through the run: the aggregation sees its last known value. */
  lemma UnchangedSourceIsIsolated(setup: Setup, buffers: map<string, Bytes>, data: map<string, Value>,
                                  files: map<Path, Bytes>, host: Host, uuid: nat -> string, key: string)
    requires Fits(setup, buffers, data)
    requires key in setup.order && setup.paths[key] != setup.output
    requires forall k <- setup.order :: k == key || setup.paths[k] != setup.paths[key]
    requires setup.paths[key] in files && files[setup.paths[key]] == buffers[key]
    ensures var r := Regenerate(setup, buffers, data, files, host, uuid);
            && r.buffers[key] == buffers[key] && r.data[key] == data[key]
            && r.files[setup.paths[key]] == files[setup.paths[key]]
  {
    var p0 := Pass(files, buffers, data, false, false, 0, []);
    VisitAllIsolates(p0, setup.order, setup.paths, host, uuid, key);
  }
}
