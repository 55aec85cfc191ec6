/**
  Repeated runs of `writeThemeJS` settle. The write-back of a source changes
  its file after its bytes were stored, so the watcher calls the run again;
  the second run re-reads the written file, finds every id in place and
  rewrites nothing new, and a third run finds every file equal to its stored
  bytes and writes nothing at all.

  This holds when the host's JSON round-trips the backfilled values of the
  files it parses (parse after stringify and encode gives the value back),
  when the tokens of the first run are non-empty (an empty token is a falsy
  id and is replaced again), and when the artifact is not itself one of the
  sources.
 */
module Convergence {
  import opened Wrappers
  import opened Json
  import opened Files
  import opened IdBackfill
  import opened Regeneration

  /** The host reads back what it wrote for every value a write-back can
      hold: the backfilled value of some parsed file, for any tokens. These
      values are countably many, so a host can meet this (see
      `SomeHostRoundTrips`). */
  ghost predicate RoundTrips(host: Host)
  {
    forall bytes: Bytes, uuid: nat -> string, n: nat
      | host.parse(bytes).Some? && !Backfill(host.parse(bytes).value, uuid, n).failed
      :: var v := Backfill(host.parse(bytes).value, uuid, n).value;
         host.parse(host.encode(host.stringify(v))) == Some(v)
  }

  /** The hypothesis is consistent: a host that parses the empty file as `[]`,
      and nothing else, round-trips what the backfill leaves. */
  lemma SomeHostRoundTrips()
    ensures RoundTrips(Host(b => if b == [] then Some(Arr([])) else None, v => "", s => [], d => Some(Null)))
  {
  }

  /** `createUuid` never returns the empty string. */
  ghost predicate NonEmptyTokens(uuid: nat -> string)
  {
    forall n :: uuid(n) != ""
  }

  /** Bytes that parse to a value the backfill keeps and that are exactly
      what the run would write back for that value. */
  predicate FixedFile(host: Host, bytes: Bytes)
  {
    && host.parse(bytes).Some?
    && StableValue(host.parse(bytes).value)
    && host.encode(host.stringify(host.parse(bytes).value)) == bytes
  }

  /** The file of `key` is missing, holds the stored bytes, or is a file the
      backfill has finished with. */
  predicate Settled(host: Host, files: map<Path, Bytes>, buffers: map<string, Bytes>, key: string, path: Path)
  {
    key in buffers && (path !in files || files[path] == buffers[key] || FixedFile(host, files[path]))
  }

  predicate AllSettled(host: Host, files: map<Path, Bytes>, buffers: map<string, Bytes>,
                       keys: seq<string>, paths: map<string, Path>)
  {
    forall k <- keys :: k in paths && Settled(host, files, buffers, k, paths[k])
  }

  predicate AllSynced(files: map<Path, Bytes>, buffers: map<string, Bytes>, keys: seq<string>, paths: map<string, Path>)
  {
    forall k <- keys :: k in paths && k in buffers && Synced(files, buffers, k, paths[k])
  }

  /** Moving the first key of `keys` to the end of `done`. */
  lemma MoveFirst(done: seq<string>, keys: seq<string>)
    requires keys != []
    ensures (done + [keys[0]]) + keys[1..] == done + keys
  {
    assert keys == [keys[0]] + keys[1..];
  }

  /** What a source's executor writes back is a finished file. */
  lemma WrittenFileIsFixed(p: Pass, key: string, path: Path, host: Host, uuid: nat -> string)
    requires key in p.buffers && key in p.data
    requires RoundTrips(host) && NonEmptyTokens(uuid)
    ensures var r := VisitSource(p, key, path, host, uuid);
            r.writes != p.writes ==> path in r.files && FixedFile(host, r.files[path])
  {
    var r := VisitSource(p, key, path, host, uuid);
    if r.writes != p.writes {
      var parsed := host.parse(p.files[path]).value;
      BackfillResultIsStable(parsed, uuid, p.issued);
      var v := r.data[key];
      assert v == Backfill(parsed, uuid, p.issued).value;
      assert r.files[path] == host.encode(host.stringify(v));
      assert host.parse(r.files[path]) == Some(v);
    }
  }

  /** A source's executor leaves its own file settled. */
  lemma VisitSettlesSource(p: Pass, key: string, path: Path, host: Host, uuid: nat -> string)
    requires key in p.buffers && key in p.data
    requires RoundTrips(host) && NonEmptyTokens(uuid)
    ensures Settled(host, VisitSource(p, key, path, host, uuid).files, VisitSource(p, key, path, host, uuid).buffers, key, path)
  {
    WrittenFileIsFixed(p, key, path, host, uuid);
  }

  /** A source's executor keeps every other settled source settled, also one
      that shares its file. */
  lemma VisitKeepsSettled(p: Pass, key: string, path: Path, host: Host, uuid: nat -> string,
                          other: string, otherPath: Path)
    requires key in p.buffers && key in p.data
    requires RoundTrips(host) && NonEmptyTokens(uuid)
    requires other == key ==> otherPath == path
    requires Settled(host, p.files, p.buffers, other, otherPath)
    ensures Settled(host, VisitSource(p, key, path, host, uuid).files, VisitSource(p, key, path, host, uuid).buffers, other, otherPath)
  {
    WrittenFileIsFixed(p, key, path, host, uuid);
    if other == key {
      VisitSettlesSource(p, key, path, host, uuid);
    }
  }

  /** Run once with non-empty tokens, the executors of `keys` leave every
      source of `done` and of `keys` settled. */
  lemma {:induction false} VisitAllSettles(p: Pass, keys: seq<string>, paths: map<string, Path>, host: Host,
                                           uuid: nat -> string, done: seq<string>)
    requires forall k <- keys :: k in paths && k in p.buffers && k in p.data
    requires RoundTrips(host) && NonEmptyTokens(uuid)
    requires AllSettled(host, p.files, p.buffers, done, paths)
    ensures var r := VisitAll(p, keys, paths, host, uuid);
            AllSettled(host, r.files, r.buffers, done + keys, paths)
    decreases |keys|
  {
    if keys == [] {
      assert done + keys == done;
    } else {
      var key := keys[0];
      var q := VisitSource(p, key, paths[key], host, uuid);
      assert key in keys;
      forall k <- done
        ensures k in paths && Settled(host, q.files, q.buffers, k, paths[k])
      {
        VisitKeepsSettled(p, key, paths[key], host, uuid, k, paths[k]);
      }
      VisitSettlesSource(p, key, paths[key], host, uuid);
      var done' := done + [key];
      assert AllSettled(host, q.files, q.buffers, done', paths);
      var rest := keys[1..];
      assert forall k <- rest :: k in paths && k in q.buffers && k in q.data;
      VisitAllSettles(q, rest, paths, host, uuid, done');
      MoveFirst(done, keys);
    }
  }

  /** After a run with non-empty tokens every source is settled. */
  lemma RunLeavesSourcesSettled(setup: Setup, buffers: map<string, Bytes>, data: map<string, Value>,
                                files: map<Path, Bytes>, host: Host, uuid: nat -> string)
    requires Fits(setup, buffers, data)
    requires RoundTrips(host) && NonEmptyTokens(uuid)
    requires setup.output !in SourcePaths(setup)
    ensures var r := Regenerate(setup, buffers, data, files, host, uuid);
            AllSettled(host, r.files, r.buffers, setup.order, setup.paths)
  {
    var p0 := Pass(files, buffers, data, false, false, 0, []);
    VisitAllSettles(p0, setup.order, setup.paths, host, uuid, []);
    assert [] + setup.order == setup.order;
    var p := VisitAll(p0, setup.order, setup.paths, host, uuid);
    var r := Regenerate(setup, buffers, data, files, host, uuid);
    forall k <- setup.order
      ensures k in setup.paths && Settled(host, r.files, r.buffers, k, setup.paths[k])
    {
      assert Settled(host, p.files, p.buffers, k, setup.paths[k]);
      assert setup.paths[k] in SourcePaths(setup);
    }
  }

  /** On a settled source the executor rewrites no bytes and afterwards the
      file holds the stored bytes. */
  lemma VisitFromSettled(p: Pass, key: string, path: Path, host: Host, uuid: nat -> string)
    requires key in p.buffers && key in p.data
    requires Settled(host, p.files, p.buffers, key, path)
    ensures var r := VisitSource(p, key, path, host, uuid);
            r.files == p.files && Synced(r.files, r.buffers, key, path)
  {
    if Changed(p, key, path) {
      var v := host.parse(p.files[path]).value;
      StableIsFixedPoint(v, uuid, p.issued);
    }
  }

  /** Started from settled sources, the executors of `keys` leave the files
      as they were and every source of `done` and of `keys` synced. */
  lemma {:induction false} VisitAllFromSettled(p: Pass, keys: seq<string>, paths: map<string, Path>, host: Host,
                                               uuid: nat -> string, done: seq<string>)
    requires forall k <- keys :: k in paths && k in p.buffers && k in p.data
    requires AllSettled(host, p.files, p.buffers, keys, paths)
    requires AllSynced(p.files, p.buffers, done, paths)
    ensures var r := VisitAll(p, keys, paths, host, uuid);
            r.files == p.files && AllSynced(r.files, r.buffers, done + keys, paths)
    decreases |keys|
  {
    if keys == [] {
      assert done + keys == done;
    } else {
      var key := keys[0];
      var q := VisitSource(p, key, paths[key], host, uuid);
      assert key in keys;
      VisitFromSettled(p, key, paths[key], host, uuid);
      var done' := done + [key];
      assert AllSynced(q.files, q.buffers, done', paths);
      var rest := keys[1..];
      assert forall k <- rest :: k in keys;
      assert forall k <- rest :: k in paths && k in q.buffers && k in q.data;
      assert AllSettled(host, q.files, q.buffers, rest, paths);
      VisitAllFromSettled(q, rest, paths, host, uuid, done');
      MoveFirst(done, keys);
    }
  }

  /** A run from settled sources changes no source file (at most the
      artifact) and leaves every source synced. */
  lemma SecondRunSyncsSources(setup: Setup, buffers: map<string, Bytes>, data: map<string, Value>,
                              files: map<Path, Bytes>, host: Host, uuid: nat -> string)
    requires Fits(setup, buffers, data)
    requires setup.output !in SourcePaths(setup)
    requires AllSettled(host, files, buffers, setup.order, setup.paths)
    ensures var r := Regenerate(setup, buffers, data, files, host, uuid);
            && (r.files == files
                || (ArtifactBytes(setup, r.data, host).Some?
                    && r.files == files[setup.output := ArtifactBytes(setup, r.data, host).value]))
            && AllSynced(r.files, r.buffers, setup.order, setup.paths)
  {
    var p0 := Pass(files, buffers, data, false, false, 0, []);
    VisitAllFromSettled(p0, setup.order, setup.paths, host, uuid, []);
    assert [] + setup.order == setup.order;
    var p := VisitAll(p0, setup.order, setup.paths, host, uuid);
    var r := Regenerate(setup, buffers, data, files, host, uuid);
    forall k <- setup.order
      ensures k in setup.paths && k in r.buffers && Synced(r.files, r.buffers, k, setup.paths[k])
    {
      assert Synced(p.files, p.buffers, k, setup.paths[k]);
      assert setup.paths[k] in SourcePaths(setup);
    }
  }

  /** Three runs in a row, each seeing the files the previous one left: the
      second changes no source file, and the third writes nothing and changes
      nothing. */
  lemma ConvergesInTwoRuns(setup: Setup, buffers: map<string, Bytes>, data: map<string, Value>,
                           files: map<Path, Bytes>, host: Host, uuid1: nat -> string,
                           uuid2: nat -> string, uuid3: nat -> string)
    requires Fits(setup, buffers, data)
    requires RoundTrips(host) && NonEmptyTokens(uuid1)
    requires setup.output !in SourcePaths(setup)
    ensures var r1 := Regenerate(setup, buffers, data, files, host, uuid1);
            var r2 := Regenerate(setup, r1.buffers, r1.data, r1.files, host, uuid2);
            var r3 := Regenerate(setup, r2.buffers, r2.data, r2.files, host, uuid3);
            && (r2.files == r1.files
                || (ArtifactBytes(setup, r2.data, host).Some?
                    && r2.files == r1.files[setup.output := ArtifactBytes(setup, r2.data, host).value]))
            && r3.writes == [] && r3.files == r2.files
            && r3.buffers == r2.buffers && r3.data == r2.data
  {
    var r1 := Regenerate(setup, buffers, data, files, host, uuid1);
    RunLeavesSourcesSettled(setup, buffers, data, files, host, uuid1);
    SecondRunSyncsSources(setup, r1.buffers, r1.data, r1.files, host, uuid2);
    var r2 := Regenerate(setup, r1.buffers, r1.data, r1.files, host, uuid2);
    assert forall k <- setup.order :: Synced(r2.files, r2.buffers, k, setup.paths[k]);
    QuietRunWritesNothing(setup, r2.buffers, r2.data, r2.files, host, uuid3);
  }

  /** One source whose parsed array has an object element without a truthy
      id, no element the loop throws on and no element that is itself an
      array: its first visit writes the file back; the second visit sees
      bytes different from the stored ones, re-parses them to the value
      already stored, creates no id and writes nothing; a third visit changes
      nothing at all. */
  lemma BackfilledSourceSettlesOnSecondVisit(p: Pass, key: string, path: Path, host: Host,
                                             uuid1: nat -> string, uuid2: nat -> string, uuid3: nat -> string)
    requires key in p.buffers && key in p.data
    requires RoundTrips(host) && NonEmptyTokens(uuid1)
    requires Changed(p, key, path) && host.parse(p.files[path]).Some?
    requires host.parse(p.files[path]).value.Arr?
    requires forall e <- host.parse(p.files[path]).value.items :: !Throws(e) && !e.Arr?
    requires exists e <- host.parse(p.files[path]).value.items :: e.Obj? && LacksId(e)
    ensures var r1 := VisitSource(p, key, path, host, uuid1);
            var r2 := VisitSource(r1, key, path, host, uuid2);
            var r3 := VisitSource(r2, key, path, host, uuid3);
            && r1.writes == p.writes + [path]
            && Changed(r1, key, path)
            && r2.data[key] == r1.data[key] && r2.files == r1.files
            && r2.buffers[key] == r1.files[path]
            && r2.writes == r1.writes && r2.issued == r1.issued
            && r3 == r2
  {
    var v0 := host.parse(p.files[path]).value;
    var items := v0.items;
    var w := Backfill(v0, uuid1, p.issued);
    BackfillAssignsMissingIds(items, uuid1, p.issued);
    var e :| e in items && e.Obj? && LacksId(e);
    var j :| 0 <= j < |items| && items[j] == e;
    BackfillStampsObject(items, uuid1, p.issued, j);
    var token := uuid1(p.issued + Needing(items, 0, j));
    assert w.value.items[j] == Obj(e.fields["id" := Str(token)]);
    assert w.value != v0 by {
      assert w.value.items[j] != items[j] by {
        assert Truthy(Str(token));
      }
    }
    NeedingZero(items, 0, |items|);
    var r1 := VisitSource(p, key, path, host, uuid1);
    assert r1.data[key] == w.value;
    BackfillResultIsStable(v0, uuid1, p.issued);
    BackfillResultIsClean(v0, uuid1, p.issued);
    assert host.parse(r1.files[path]) == Some(w.value);
    CleanIsUntouched(w.value, uuid2, r1.issued);
  }

  /** Bytes that parse to a value on which the backfill creates no id, and
      that are exactly what the run would write back for that value. */
  predicate CleanFile(host: Host, bytes: Bytes)
  {
    && host.parse(bytes).Some?
    && CleanValue(host.parse(bytes).value)
    && host.encode(host.stringify(host.parse(bytes).value)) == bytes
  }

  /** The file of `key` is missing, holds the stored bytes, or is a file on
      which the backfill creates no id. */
  predicate CleanSettled(host: Host, files: map<Path, Bytes>, buffers: map<string, Bytes>, key: string, path: Path)
  {
    key in buffers && (path !in files || files[path] == buffers[key] || CleanFile(host, files[path]))
  }

  predicate AllCleanSettled(host: Host, files: map<Path, Bytes>, buffers: map<string, Bytes>,
                            keys: seq<string>, paths: map<string, Path>)
  {
    forall k <- keys :: k in paths && CleanSettled(host, files, buffers, k, paths[k])
  }

  /** The file at `path`, if there is one, does not parse to an array with an
      array among its elements. */
  predicate FlatAt(host: Host, files: map<Path, Bytes>, path: Path)
  {
    path in files && host.parse(files[path]).Some? && host.parse(files[path]).value.Arr? ==>
      forall e <- host.parse(files[path]).value.items :: !e.Arr?
  }

  /** What an executor writes back from a file without nested arrays is a
      file on which the backfill creates no id. */
  lemma WrittenFlatFileIsClean(p: Pass, key: string, path: Path, host: Host, uuid: nat -> string)
    requires key in p.buffers && key in p.data
    requires RoundTrips(host) && NonEmptyTokens(uuid)
    requires FlatAt(host, p.files, path)
    ensures var r := VisitSource(p, key, path, host, uuid);
            r.writes != p.writes ==> path in r.files && CleanFile(host, r.files[path])
  {
    var r := VisitSource(p, key, path, host, uuid);
    if r.writes != p.writes {
      var parsed := host.parse(p.files[path]).value;
      BackfillResultIsClean(parsed, uuid, p.issued);
      var v := r.data[key];
      assert v == Backfill(parsed, uuid, p.issued).value;
      assert StableValue(v);
      assert host.parse(r.files[path]) == Some(v);
    }
  }

  /** An executor leaves its own source clean-settled when its file has no
      nested arrays. */
  lemma VisitCleansSource(p: Pass, key: string, path: Path, host: Host, uuid: nat -> string)
    requires key in p.buffers && key in p.data
    requires RoundTrips(host) && NonEmptyTokens(uuid)
    requires FlatAt(host, p.files, path)
    ensures var r := VisitSource(p, key, path, host, uuid);
            CleanSettled(host, r.files, r.buffers, key, path)
  {
    WrittenFlatFileIsClean(p, key, path, host, uuid);
  }

  /** An executor keeps every other clean-settled source clean-settled, also
      one that shares its file. */
  lemma VisitKeepsCleanSettled(p: Pass, key: string, path: Path, host: Host, uuid: nat -> string,
                               other: string, otherPath: Path)
    requires key in p.buffers && key in p.data
    requires RoundTrips(host) && NonEmptyTokens(uuid)
    requires FlatAt(host, p.files, path)
    requires other == key ==> otherPath == path
    requires CleanSettled(host, p.files, p.buffers, other, otherPath)
    ensures var r := VisitSource(p, key, path, host, uuid);
            CleanSettled(host, r.files, r.buffers, other, otherPath)
  {
    WrittenFlatFileIsClean(p, key, path, host, uuid);
    if other == key {
      VisitCleansSource(p, key, path, host, uuid);
    }
  }

  /** An executor writes only a file without nested arrays, so files without
      them stay so. */
  lemma VisitKeepsFlat(p: Pass, key: string, path: Path, host: Host, uuid: nat -> string, otherPath: Path)
    requires key in p.buffers && key in p.data
    requires RoundTrips(host) && NonEmptyTokens(uuid)
    requires FlatAt(host, p.files, path) && FlatAt(host, p.files, otherPath)
    ensures FlatAt(host, VisitSource(p, key, path, host, uuid).files, otherPath)
  {
    var r := VisitSource(p, key, path, host, uuid);
    WrittenFlatFileIsClean(p, key, path, host, uuid);
    if r.writes != p.writes && otherPath == path {
      var v := host.parse(r.files[path]).value;
      if v.Arr? {
        forall e <- v.items
          ensures !e.Arr?
        {
          assert CleanElement(e);
        }
      }
    }
  }

  /** Run once with non-empty tokens on files without nested arrays, the
      executors of `keys` leave every source of `done` and of `keys`
      clean-settled. */
  lemma {:induction false} VisitAllCleans(p: Pass, keys: seq<string>, paths: map<string, Path>, host: Host,
                                          uuid: nat -> string, done: seq<string>)
    requires forall k <- keys :: k in paths && k in p.buffers && k in p.data
    requires RoundTrips(host) && NonEmptyTokens(uuid)
    requires forall k <- keys :: FlatAt(host, p.files, paths[k])
    requires AllCleanSettled(host, p.files, p.buffers, done, paths)
    ensures var r := VisitAll(p, keys, paths, host, uuid);
            AllCleanSettled(host, r.files, r.buffers, done + keys, paths)
    decreases |keys|
  {
    if keys == [] {
      assert done + keys == done;
    } else {
      var key := keys[0];
      var q := VisitSource(p, key, paths[key], host, uuid);
      assert key in keys;
      forall k <- done
        ensures k in paths && CleanSettled(host, q.files, q.buffers, k, paths[k])
      {
        VisitKeepsCleanSettled(p, key, paths[key], host, uuid, k, paths[k]);
      }
      VisitCleansSource(p, key, paths[key], host, uuid);
      var done' := done + [key];
      assert AllCleanSettled(host, q.files, q.buffers, done', paths);
      var rest := keys[1..];
      forall k <- rest
        ensures k in paths && k in q.buffers && k in q.data && FlatAt(host, q.files, paths[k])
      {
        assert k in keys;
        VisitKeepsFlat(p, key, paths[key], host, uuid, paths[k]);
      }
      VisitAllCleans(q, rest, paths, host, uuid, done');
      MoveFirst(done, keys);
    }
  }

  /** After a run with non-empty tokens on source files without nested
      arrays, every source is clean-settled. */
  lemma RunLeavesSourcesClean(setup: Setup, buffers: map<string, Bytes>, data: map<string, Value>,
                              files: map<Path, Bytes>, host: Host, uuid: nat -> string)
    requires Fits(setup, buffers, data)
    requires RoundTrips(host) && NonEmptyTokens(uuid)
    requires setup.output !in SourcePaths(setup)
    requires forall k <- setup.order :: FlatAt(host, files, setup.paths[k])
    ensures var r := Regenerate(setup, buffers, data, files, host, uuid);
            AllCleanSettled(host, r.files, r.buffers, setup.order, setup.paths)
  {
    var p0 := Pass(files, buffers, data, false, false, 0, []);
    VisitAllCleans(p0, setup.order, setup.paths, host, uuid, []);
    assert [] + setup.order == setup.order;
    var p := VisitAll(p0, setup.order, setup.paths, host, uuid);
    var r := Regenerate(setup, buffers, data, files, host, uuid);
    forall k <- setup.order
      ensures k in setup.paths && CleanSettled(host, r.files, r.buffers, k, setup.paths[k])
    {
      assert CleanSettled(host, p.files, p.buffers, k, setup.paths[k]);
      assert setup.paths[k] in SourcePaths(setup);
    }
  }

  /** On a clean-settled source the executor writes nothing, creates no id
      and leaves the file equal to the stored bytes. */
  lemma VisitFromCleanSettled(p: Pass, key: string, path: Path, host: Host, uuid: nat -> string)
    requires key in p.buffers && key in p.data
    requires CleanSettled(host, p.files, p.buffers, key, path)
    ensures var r := VisitSource(p, key, path, host, uuid);
            && r.files == p.files && r.writes == p.writes && r.issued == p.issued
            && Synced(r.files, r.buffers, key, path)
  {
    if Changed(p, key, path) {
      var v := host.parse(p.files[path]).value;
      CleanIsUntouched(v, uuid, p.issued);
    }
  }

  /** Started from clean-settled sources, the executors of `keys` write
      nothing and create no id. */
  lemma {:induction false} VisitAllFromCleanSettled(p: Pass, keys: seq<string>, paths: map<string, Path>, host: Host,
                                                    uuid: nat -> string)
    requires forall k <- keys :: k in paths && k in p.buffers && k in p.data
    requires AllCleanSettled(host, p.files, p.buffers, keys, paths)
    ensures var r := VisitAll(p, keys, paths, host, uuid);
            r.files == p.files && r.writes == p.writes && r.issued == p.issued
    decreases |keys|
  {
    if keys != [] {
      var key := keys[0];
      var q := VisitSource(p, key, paths[key], host, uuid);
      assert key in keys;
      VisitFromCleanSettled(p, key, paths[key], host, uuid);
      var rest := keys[1..];
      assert forall k <- rest :: k in keys;
      assert forall k <- rest :: k in paths && k in q.buffers && k in q.data;
      assert AllCleanSettled(host, q.files, q.buffers, rest, paths);
      VisitAllFromCleanSettled(q, rest, paths, host, uuid);
    }
  }

  /** A run from clean-settled sources writes back no source and calls
      `createUuid` not once: its only write is the artifact, if any. */
  lemma SecondRunWritesOnlyArtifact(setup: Setup, buffers: map<string, Bytes>, data: map<string, Value>,
                                    files: map<Path, Bytes>, host: Host, uuid: nat -> string)
    requires Fits(setup, buffers, data)
    requires AllCleanSettled(host, files, buffers, setup.order, setup.paths)
    ensures var r := Regenerate(setup, buffers, data, files, host, uuid);
            && r.writes <= [setup.output] && r.issued == 0
            && (r.files == files
                || (ArtifactBytes(setup, r.data, host).Some?
                    && r.files == files[setup.output := ArtifactBytes(setup, r.data, host).value]))
  {
    var p0 := Pass(files, buffers, data, false, false, 0, []);
    VisitAllFromCleanSettled(p0, setup.order, setup.paths, host, uuid);
  }

  /** When the source files of the first run have no nested arrays, the
      second run writes back no source and creates no id: it writes the
      artifact at most. */
  lemma SecondRunCreatesNoId(setup: Setup, buffers: map<string, Bytes>, data: map<string, Value>,
                             files: map<Path, Bytes>, host: Host, uuid1: nat -> string, uuid2: nat -> string)
    requires Fits(setup, buffers, data)
    requires RoundTrips(host) && NonEmptyTokens(uuid1)
    requires setup.output !in SourcePaths(setup)
    requires forall k <- setup.order :: FlatAt(host, files, setup.paths[k])
    ensures var r1 := Regenerate(setup, buffers, data, files, host, uuid1);
            var r2 := Regenerate(setup, r1.buffers, r1.data, r1.files, host, uuid2);
            && r2.writes <= [setup.output] && r2.issued == 0
            && (r2.files == r1.files
                || (ArtifactBytes(setup, r2.data, host).Some?
                    && r2.files == r1.files[setup.output := ArtifactBytes(setup, r2.data, host).value]))
  {
    var r1 := Regenerate(setup, buffers, data, files, host, uuid1);
    RunLeavesSourcesClean(setup, buffers, data, files, host, uuid1);
    SecondRunWritesOnlyArtifact(setup, r1.buffers, r1.data, r1.files, host, uuid2);
  }
}
