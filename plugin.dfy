/**
  The `IntouchThemePlugin` object: the registry of theme sources it builds
  when it is constructed, and `writeThemeJS`, which updates that registry
  and the files in place. Each method is proved against the functions of
  the `Regeneration` module, where the properties of a run are stated.
 */
module ThemePlugin {
  import opened Wrappers
  import opened Json
  import opened Files
  import opened IdBackfill
  import opened Artifact
  import opened Regeneration

  /** The validated config file: the source paths and the output path as
      written there, before they are resolved. */
  datatype ThemeConfig = ThemeConfig(values: string, variants: string, output: string)

  /** The properties of the config, the `keyof Config` that
      `validateThemeFilepath` takes. */
  datatype Property = Values | Variants | Output

  /** The property's name, which is also the source's key in the registry. */
  function Name(property: Property): string
  {
    match property
    case Values => "values"
    case Variants => "variants"
    case Output => "output"
  }

  /** `themeConfig[property]`. */
  function PathIn(config: ThemeConfig, property: Property): string
  {
    match property
    case Values => config.values
    case Variants => config.variants
    case Output => config.output
  }

  /** Every registered source appears once in `order` and has a path, a
      stored buffer and a stored value. */
  ghost predicate Registry(order: seq<string>, filepaths: map<string, Path>,
                           buffers: map<string, Bytes>, jsonData: map<string, Value>)
  {
    && (forall k <- order :: k in filepaths)
    && (forall k :: k in filepaths ==> k in order)
    && buffers.Keys == filepaths.Keys && jsonData.Keys == filepaths.Keys
    && (forall i, j :: 0 <= i < j < |order| ==> order[i] != order[j])
  }

  /** Registering a name, new or not, keeps the registry well formed. */
  lemma RegisterKeepsRegistry(order: seq<string>, filepaths: map<string, Path>,
                              buffers: map<string, Bytes>, jsonData: map<string, Value>,
                              name: string, path: Path)
    requires Registry(order, filepaths, buffers, jsonData)
    ensures Registry(if name in filepaths then order else order + [name], filepaths[name := path],
                     buffers[name := []], jsonData[name := EmptyObject])
  {
    if name !in filepaths {
      assert name !in order;
    }
  }

  /** Appending the run's writes and then one more path to the log. */
  lemma AppendTwice(log: seq<Path>, writes: seq<Path>, path: Path)
    ensures (log + writes) + [path] == log + (writes + [path])
  {
  }

  class IntouchThemePlugin {
    /** `themeConfig` */
    const config: ThemeConfig
    /** `path.resolve('.', _)`, which depends on the working directory */
    const resolve: string -> Path
    /** the keys of `themeFilepaths` in insertion order, the order in which
        `Object.entries` lists them */
    var order: seq<string>
    /** `themeFilepaths` */
    var filepaths: map<string, Path>
    var outputPath: Path
    var isTypescript: bool
    /** `themeFileBuffers` */
    var buffers: map<string, Bytes>
    /** `themeJSONData` */
    var jsonData: map<string, Value>

    /** The registry the object holds is well formed. */
    ghost predicate Valid()
      reads this
    {
      Registry(order, filepaths, buffers, jsonData)
    }

    /** What `writeThemeJS` reads of the object besides the two maps. */
    function CurrentSetup(): Setup
      reads this
    {
      Setup(order, filepaths, outputPath, isTypescript)
    }

    /** The part of the constructor that cannot fail: the config is kept,
        the three maps start empty, and the output path and format are
        fixed. */
    constructor Init(config: ThemeConfig, resolve: string -> Path)
      ensures this.config == config && this.resolve == resolve
      ensures order == [] && filepaths == map[] && buffers == map[] && jsonData == map[]
      ensures outputPath == resolve(config.output)
      ensures isTypescript == IsTypescript(resolve(config.output))
      ensures Valid()
    {
      this.config := config;
      this.resolve := resolve;
      order := [];
      filepaths := map[];
      buffers := map[];
      jsonData := map[];
      outputPath := resolve(config.output);
      isTypescript := IsTypescript(resolve(config.output));
    }

    /** `validateThemeFilepath(name)`: fails (the source throws) when the
        resolved path does not exist; otherwise registers the source with an
        empty buffer and the empty object as its value. A name registered
        before keeps its place in the order. */
    method ValidateThemeFilepath(property: Property, disk: Disk) returns (ok: bool)
      requires Valid()
      modifies this`order, this`filepaths, this`buffers, this`jsonData
      ensures Valid()
      ensures ok <==> resolve(PathIn(config, property)) in disk.files
      ensures !ok ==> order == old(order) && filepaths == old(filepaths) && buffers == old(buffers) && jsonData == old(jsonData)
      ensures ok ==> && filepaths == old(filepaths)[Name(property) := resolve(PathIn(config, property))]
                     && buffers == old(buffers)[Name(property) := []]
                     && jsonData == old(jsonData)[Name(property) := EmptyObject]
                     && order == (if Name(property) in old(filepaths) then old(order) else old(order) + [Name(property)])
    {
      var name := Name(property);
      var filepath := resolve(PathIn(config, property));
      if filepath !in disk.files {
        return false;
      }
      RegisterKeepsRegistry(order, filepaths, buffers, jsonData, name, filepath);
      order := if name in filepaths then order else order + [name];
      filepaths := filepaths[name := filepath];
      buffers := buffers[name := []];
      jsonData := jsonData[name := EmptyObject];
      ok := true;
    }

    /** Lines 47-48: `values`, then `variants`, are registered in an empty
        registry; this fails as soon as one of their files is missing. */
    method RegisterSources(disk: Disk) returns (ok: bool)
      requires Valid() && filepaths == map[] && order == []
      modifies this`order, this`filepaths, this`buffers, this`jsonData
      ensures ok <==> resolve(config.values) in disk.files && resolve(config.variants) in disk.files
      ensures ok ==> && Valid()
                     && order == ["values", "variants"]
                     && filepaths == map["values" := resolve(config.values), "variants" := resolve(config.variants)]
                     && buffers == map["values" := [], "variants" := []]
                     && jsonData == map["values" := EmptyObject, "variants" := EmptyObject]
    {
      ok := ValidateThemeFilepath(Values, disk);
      if !ok {
        return;
      }
      assert buffers == map["values" := []] && jsonData == map["values" := EmptyObject];
      ok := ValidateThemeFilepath(Variants, disk);
    }

    /** The constructor: a missing source file makes construction fail, and
        then no plugin exists; otherwise the registry holds `values` and
        `variants`, each with an empty buffer and `{}`. */
    static method Create(config: ThemeConfig, resolve: string -> Path, disk: Disk)
      returns (r: Option<IntouchThemePlugin>)
      ensures r.Some? <==> resolve(config.values) in disk.files && resolve(config.variants) in disk.files
      ensures r.Some? ==> && fresh(r.value) && r.value.Valid()
                          && r.value.config == config && r.value.resolve == resolve
                          && r.value.order == ["values", "variants"]
                          && r.value.filepaths == map["values" := resolve(config.values), "variants" := resolve(config.variants)]
                          && r.value.buffers == map["values" := [], "variants" := []]
                          && r.value.jsonData == map["values" := EmptyObject, "variants" := EmptyObject]
                          && r.value.outputPath == resolve(config.output)
                          && r.value.isTypescript == IsTypescript(resolve(config.output))
    {
      var plugin := new IntouchThemePlugin.Init(config, resolve);
      var ok := plugin.RegisterSources(disk);
      r := if ok then Some(plugin) else None;
    }

    /** The promise executor of one source, the body of the `map` callback:
        `before` is the state of the run it starts from, and the registry,
        the files, the flags and the log end as `VisitSource` says. */
    method VisitSourceStep(key: string, path: Path, disk: Disk, host: Host, uuid: nat -> string,
                           didChange: bool, rejected: bool, issued: nat, ghost before: Pass, ghost log: seq<Path>)
      returns (didChange': bool, rejected': bool, issued': nat)
      requires key in buffers && key in jsonData
      requires before == Pass(disk.files, buffers, jsonData, didChange, rejected, issued, before.writes)
      requires disk.writes == log + before.writes
      modifies this`buffers, this`jsonData, disk
      ensures var r := VisitSource(before, key, path, host, uuid);
              && disk.files == r.files && buffers == r.buffers && jsonData == r.data
              && didChange' == r.didChange && rejected' == r.rejected && issued' == r.issued
              && disk.writes == log + r.writes
    {
      didChange', rejected', issued' := didChange, rejected, issued;
      var read := disk.ReadFile(path);
      match read {
        case None =>
          // `fs.readFileSync` throws
          rejected' := true;
        case Some(bytes) =>
          if bytes != buffers[key] {
            buffers := buffers[key := bytes];
            var parsed := host.parse(bytes);
            match parsed {
              case None =>
                // `JSON.parse` throws
                rejected' := true;
              case Some(value) =>
                var backfilled, nowIssued, created, failed := BackfillParsed(value, uuid, issued);
                jsonData := jsonData[key := backfilled];
                didChange' := true;
                issued' := nowIssued;
                if failed {
                  rejected' := true;
                } else if created {
                  disk.WriteFile(path, host.encode(host.stringify(backfilled)));
                }
            }
          }
      }
    }

    /** Lines 71-99: the executors of the registered sources in order, with
        `didChange` and the outcome of `Promise.all` as results. */
    method VisitSources(disk: Disk, host: Host, uuid: nat -> string) returns (didChange: bool, rejected: bool)
      requires Valid()
      modifies this`buffers, this`jsonData, disk
      ensures Valid()
      ensures var p := VisitAll(Pass(old(disk.files), old(buffers), old(jsonData), false, false, 0, []),
                                order, filepaths, host, uuid);
              && buffers == p.buffers && jsonData == p.data && disk.files == p.files
              && disk.writes == old(disk.writes) + p.writes
              && didChange == p.didChange && rejected == p.rejected
    {
      ghost var start := Pass(disk.files, buffers, jsonData, false, false, 0, []);
      ghost var log := disk.writes;
      didChange, rejected := false, false;
      var issued: nat := 0;
      ghost var cur := start;
      var i := 0;
      while i < |order|
        invariant 0 <= i <= |order|
        invariant buffers.Keys == filepaths.Keys && jsonData.Keys == filepaths.Keys
        invariant disk.writes == log + cur.writes
        invariant cur == Pass(disk.files, buffers, jsonData, didChange, rejected, issued, cur.writes)
        invariant VisitAll(cur, order[i..], filepaths, host, uuid) == VisitAll(start, order, filepaths, host, uuid)
      {
        var key := order[i];
        ghost var next := VisitSource(cur, key, filepaths[key], host, uuid);
        VisitAllUnfolds(cur, order[i..], filepaths, host, uuid);
        assert order[i..][1..] == order[i + 1..];
        didChange, rejected, issued := VisitSourceStep(key, filepaths[key], disk, host, uuid, didChange, rejected, issued, cur, log);
        cur := next;
        i := i + 1;
      }
      assert order[i..] == [];
    }

    /** `writeThemeJS`: the registry and the files become what `Regenerate`
        computes from their old values, the writes of the run are appended
        to the disk's log, and `rejected` tells whether the returned promise
        rejects. */
    method WriteThemeJS(disk: Disk, host: Host, uuid: nat -> string) returns (rejected: bool)
      requires Valid()
      modifies this`buffers, this`jsonData, disk
      ensures Valid()
      ensures var r := Regenerate(CurrentSetup(), old(buffers), old(jsonData), old(disk.files), host, uuid);
              && buffers == r.buffers && jsonData == r.data
              && disk.files == r.files && disk.writes == old(disk.writes) + r.writes
              && rejected == r.rejected
    {
      ghost var p := VisitAll(Pass(disk.files, buffers, jsonData, false, false, 0, []), order, filepaths, host, uuid);
      ghost var log := disk.writes;
      var didChange;
      didChange, rejected := VisitSources(disk, host, uuid);
      if didChange && !rejected {
        // the theme is `themeProcessor(themeJSONData)`, written with the template of line 106
        var artifact := ArtifactBytes(CurrentSetup(), jsonData, host);
        if artifact.None? {
          rejected := true;
        } else {
          disk.WriteFile(outputPath, artifact.value);
          AppendTwice(log, p.writes, outputPath);
        }
      }
    }
  }
}
