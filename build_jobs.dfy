/** The build jobs of the JavaScript build script: the job records Rollup is
    configured from, the UMD jobs derived from a directory of `.mjs` assets
    (`addUmdAssets`), and the in-place normalisation every job goes through
    before bundling (`genConfig`, mapped over the whole list by `build`). */
module BuildJobs {
  import opened JsStrings
  import opened BuildStrings

  datatype Option<T> = None | Some(value: T)

  function OrEmpty<T>(xs: Option<seq<T>>): seq<T>
  {
    if xs.Some? then xs.value else []
  }

  function OrEmptyMap<K, V>(m: Option<map<K, V>>): map<K, V>
  {
    if m.Some? then m.value else map[]
  }

  /** A value of a job's `replace` table: the quoted version string or a feature flag. */
  datatype ReplaceValue = Text(text: string) | Flag(flag: bool)

  /** Rollup plugins, as opaque tokens: node resolution, and the constant
      replacement plugin with the table it substitutes. */
  datatype Plugin = NodeResolve | Replace(preventAssignment: bool, values: map<string, ReplaceValue>)

  datatype Format = Es | Umd

  /** `output.name`: absent, explicitly `false`, or a string. */
  datatype OutputName = Unset | Disabled | Named(name: string)

  /** `rollup.input`: the entry point, the plugin list and the externals. */
  datatype InputOptions = InputOptions(input: string, plugins: seq<Plugin>, external: Option<seq<string>>)

  /** `rollup.output`. */
  datatype OutputOptions = OutputOptions(
    file: string,
    format: Format,
    name: OutputName,
    banner: Option<string>,
    globals: Option<map<string, string>>)

  /** `build`: which outputs to write (an absent flag reads as `false`) and
      the constants to substitute. */
  datatype BuildFlags = BuildFlags(unminified: bool, minified: bool, replace: Option<map<string, ReplaceValue>>)

  /** The whole contents of one job record. */
  datatype Job = Job(input: InputOptions, output: OutputOptions, build: BuildFlags)

  /** `commonRollupPlugins`. */
  const CommonRollupPlugins: seq<Plugin> := [NodeResolve]

  /** The modules every bundle leaves to the page. */
  const VueExternals: seq<string> := ["vue", "@vue/compiler-dom"]

  /** The global name a bundle gets when its job names none. */
  const DefaultName: string := "Quasar"

  /** A job record, updated in place by `genConfig`. The nested `rollup.input`,
      `rollup.output` and `build` objects are fields holding record values. */
  class BuildJob {
    var input: InputOptions
    var output: OutputOptions
    var build: BuildFlags

    function Value(): Job
      reads this
    {
      Job(input, output, build)
    }

    constructor (input: InputOptions, output: OutputOptions, build: BuildFlags)
      ensures Value() == Job(input, output, build)
    {
      this.input := input;
      this.output := output;
      this.build := build;
    }
  }

  /** No job object appears twice in the list. */
  ghost predicate Distinct(jobs: seq<BuildJob>)
  {
    forall i, j :: 0 <= i < j < |jobs| ==> jobs[i] != jobs[j]
  }

  /** The `builds` array, to which `addUmdAssets` appends. */
  class BuildList {
    var jobs: seq<BuildJob>

    ghost predicate Valid()
      reads this
    {
      Distinct(jobs)
    }

    /** The `builds` literal: its job objects are distinct. */
    constructor (jobs: seq<BuildJob>)
      requires Distinct(jobs)
      ensures this.jobs == jobs
      ensures Valid()
    {
      this.jobs := jobs;
    }
  }

  /** `path.resolve(rootFolder, path)` for a relative path without `.` or `..` segments. */
  function Resolve(root: string, path: string): string
  {
    root + "/" + path
  }

  // ---------------------------------------------------------------------------
  // addUmdAssets

  /** `files.filter(file => file.endsWith('.mjs'))`. */
  function MjsFiles(files: seq<string>): (r: seq<string>)
    ensures |r| <= |files|
    ensures forall k :: 0 <= k < |r| ==> EndsWith(r[k], ".mjs")
  {
    if files == [] then []
    else (if EndsWith(files[0], ".mjs") then [files[0]] else []) + MjsFiles(files[1..])
  }

  /** The filter keeps every `.mjs` file exactly as often as it is listed, and nothing else. */
  lemma {:induction false} MjsFilesCount(files: seq<string>, f: string)
    ensures multiset(MjsFiles(files))[f] == if EndsWith(f, ".mjs") then multiset(files)[f] else 0
  {
    if files != [] {
      MjsFilesCount(files[1..], f);
      assert files == [files[0]] + files[1..];
      assert multiset(files) == multiset([files[0]]) + multiset(files[1..]);
    }
  }

  /** A listed file is kept exactly when it ends in `.mjs`. */
  lemma MjsFilesMember(files: seq<string>, f: string)
    ensures f in MjsFiles(files) <==> f in files && EndsWith(f, ".mjs")
  {
    MjsFilesCount(files, f);
    assert f in MjsFiles(files) <==> multiset(MjsFiles(files))[f] > 0;
    assert f in files <==> multiset(files)[f] > 0;
  }

  /** The filter keeps listing order: filtering two listings one after the
      other is filtering their concatenation. */
  lemma {:induction false} MjsFilesAppend(a: seq<string>, b: seq<string>)
    ensures MjsFiles(a + b) == MjsFiles(a) + MjsFiles(b)
  {
    if a == [] {
      assert a + b == b;
    } else {
      assert (a + b)[0] == a[0] && (a + b)[1..] == a[1..] + b;
      MjsFilesAppend(a[1..], b);
      var head := if EndsWith(a[0], ".mjs") then [a[0]] else [];
      assert MjsFiles(a + b) == head + MjsFiles(a[1..] + b);
      assert MjsFiles(a) == head + MjsFiles(a[1..]);
    }
  }

  /** The job `addUmdAssets` pushes for one `.mjs` asset of directory `assetType`. */
  function UmdJob(root: string, assetType: string, injectName: string, file: string): Job
  {
    Job(
      InputOptions(Resolve(root, assetType + "/" + file), [], None),
      OutputOptions(
        AddExtension(Resolve(root, "dist/" + assetType + "/" + file), "umd"),
        Umd,
        Named("Quasar." + injectName + "." + AssetName(file)),
        None,
        None),
      BuildFlags(false, true, None))
  }

  /** `files.filter(file => file.endsWith('.mjs')).map(f)`, one value per `.mjs`
      file in listing order. */
  function MapMjs<T>(f: string -> T, files: seq<string>): (r: seq<T>)
    ensures |r| == |MjsFiles(files)|
  {
    if files == [] then []
    else (if EndsWith(files[0], ".mjs") then [f(files[0])] else []) + MapMjs(f, files[1..])
  }

  /** The `k`-th value is the one made from the `k`-th `.mjs` file. */
  lemma {:induction false} MapMjsAt<T>(f: string -> T, files: seq<string>, k: int)
    requires 0 <= k < |MjsFiles(files)|
    ensures MapMjs(f, files)[k] == f(MjsFiles(files)[k])
  {
    var rest := files[1..];
    if EndsWith(files[0], ".mjs") {
      assert MjsFiles(files) == [files[0]] + MjsFiles(rest);
      assert MapMjs(f, files) == [f(files[0])] + MapMjs(f, rest);
      if k > 0 {
        MapMjsAt(f, rest, k - 1);
      }
    } else {
      assert MjsFiles(files) == MjsFiles(rest);
      assert MapMjs(f, files) == MapMjs(f, rest);
      MapMjsAt(f, rest, k);
    }
  }

  /** The jobs `addUmdAssets` appends for a directory listing: one per `.mjs`
      file, in listing order. */
  function UmdJobs(root: string, assetType: string, injectName: string, files: seq<string>): seq<Job>
  {
    MapMjs(file => UmdJob(root, assetType, injectName, file), files)
  }

  /** There is one appended job per `.mjs` file, and the `k`-th is the one
      built for the `k`-th `.mjs` file. */
  lemma UmdJobsAt(root: string, assetType: string, injectName: string, files: seq<string>, k: int)
    requires 0 <= k < |MjsFiles(files)|
    ensures |UmdJobs(root, assetType, injectName, files)| == |MjsFiles(files)|
    ensures UmdJobs(root, assetType, injectName, files)[k] == UmdJob(root, assetType, injectName, MjsFiles(files)[k])
  {
    MapMjsAt(file => UmdJob(root, assetType, injectName, file), files, k);
  }

  /** The file an asset job writes, `dist/<type>/<basename>.umd.js`, and the
      name its minified copy is written under, `dist/<type>/<basename>.umd.prod.js`
      (`addExtension` with the default tag, when the minified code is written). */
  lemma UmdJobFiles(root: string, assetType: string, injectName: string, file: string)
    requires EndsWith(file, ".mjs")
    ensures var base := root + "/dist/" + assetType + "/" + file[..|file| - 4];
      && UmdJob(root, assetType, injectName, file).output.file == base + ".umd.js"
      && AddExtension(UmdJob(root, assetType, injectName, file).output.file) == base + ".umd.prod.js"
  {
    var front := root + "/dist/" + assetType + "/";
    var path := Resolve(root, "dist/" + assetType + "/" + file);
    assert path == front + file;
    assert EndsWith(path, ".mjs") by {
      assert path[|path| - 4..] == file[|file| - 4..];
    }
    assert path[..|path| - 4] == front + file[..|file| - 4];
    assert UmdJob(root, assetType, injectName, file).output.file == AddExtension(path, "umd");
    UmdFileNames(path);
  }

  /** Each asset job bundles `<type>/<file>` as a minified-only UMD bundle
      published under `Quasar.<injectName>.<camelCase name>`. */
  lemma UmdJobShape(root: string, assetType: string, injectName: string, file: string)
    ensures var job := UmdJob(root, assetType, injectName, file);
      && job.input.input == root + "/" + assetType + "/" + file
      && job.input.plugins == [] && job.input.external == None
      && job.output.format == Umd
      && job.output.name == Named("Quasar." + injectName + "." + AssetName(file))
      && job.output.banner == None && job.output.globals == None
      && !job.build.unminified && job.build.minified && job.build.replace == None
  {
    assert Resolve(root, assetType + "/" + file) == root + "/" + assetType + "/" + file;
  }

  /** Appends one job per `.mjs` file of the listing `files` of directory
      `assetType`, in listing order, leaving the jobs already listed as they are.
      The records are those of `UmdJobs`; the loop is the `forEach` that pushes them. */
  method AddUmdAssets(builds: BuildList, root: string, assetType: string, injectName: string, files: seq<string>)
    modifies builds
    ensures old(builds.Valid()) ==> builds.Valid()
    ensures |builds.jobs| == |old(builds.jobs)| + |MjsFiles(files)|
    ensures builds.jobs[..|old(builds.jobs)|] == old(builds.jobs)
    ensures forall j :: j in builds.jobs[|old(builds.jobs)|..] ==> fresh(j)
    ensures forall k :: 0 <= k < |MjsFiles(files)| ==>
      builds.jobs[|old(builds.jobs)|..][k].Value() == UmdJobs(root, assetType, injectName, files)[k]
  {
    var records := UmdJobs(root, assetType, injectName, files);
    ghost var before := builds.jobs;
    ghost var created: seq<BuildJob> := [];
    var i := 0;
    while i < |records|
      invariant 0 <= i <= |records|
      invariant |created| == i
      invariant builds.jobs == before + created
      invariant forall j :: 0 <= j < i ==> fresh(created[j]) && created[j].Value() == records[j]
      invariant old(builds.Valid()) ==> builds.Valid()
    {
      var job := new BuildJob(records[i].input, records[i].output, records[i].build);
      builds.jobs := builds.jobs + [job];
      created := created + [job];
      i := i + 1;
    }
    assert builds.jobs[|before|..] == created;
  }

  // ---------------------------------------------------------------------------
  // genConfig

  /** The record `genConfig` leaves behind: the plugin list rebuilt (the
      replacement plugin first, only when the job has a `replace` table), the
      Vue modules appended to the externals, the banner set, the global name
      defaulted or (when it was `false`) removed, and `globals.vue` forced. */
  function Configured(job: Job, banner: string): (r: Job)
    ensures r.build == job.build
    ensures r.input.input == job.input.input
    ensures r.output.file == job.output.file && r.output.format == job.output.format
    ensures |r.input.plugins| == |CommonRollupPlugins| + (if job.build.replace.Some? then 1 else 0)
    ensures r.input.plugins[|r.input.plugins| - |CommonRollupPlugins|..] == CommonRollupPlugins
    ensures job.build.replace.Some? ==> r.input.plugins[0] == Replace(true, job.build.replace.value)
    ensures job.build.replace.None? ==> forall p :: p in r.input.plugins ==> !p.Replace?
    ensures r.input.external == Some(OrEmpty(job.input.external) + VueExternals)
    ensures r.output.banner == Some(banner)
    ensures r.output.name == Unset <==> job.output.name == Disabled
    ensures r.output.name != Disabled
    ensures job.output.name.Named? && job.output.name.name != "" ==> r.output.name == job.output.name
    ensures job.output.name == Unset || job.output.name == Named("") ==> r.output.name == Named(DefaultName)
    ensures r.output.globals.Some?
    ensures r.output.globals.value.Keys == OrEmptyMap(job.output.globals).Keys + {"vue"}
    ensures r.output.globals.value["vue"] == "Vue"
    ensures forall g :: g in OrEmptyMap(job.output.globals) && g != "vue" ==>
      r.output.globals.value[g] == OrEmptyMap(job.output.globals)[g]
  {
    var plugins :=
      if job.build.replace.Some? then [Replace(true, job.build.replace.value)] + CommonRollupPlugins
      else CommonRollupPlugins;
    var name :=
      if job.output.name == Disabled then Unset
      else if job.output.name == Unset || job.output.name == Named("") then Named(DefaultName)
      else job.output.name;
    Job(
      job.input.(plugins := plugins, external := Some(OrEmpty(job.input.external) + VueExternals)),
      job.output.(banner := Some(banner), name := name, globals := Some(OrEmptyMap(job.output.globals)["vue" := "Vue"])),
      job.build)
  }

  /** The job object holds the record `genConfig` makes of `before`. */
  ghost predicate IsConfigured(o: BuildJob, before: Job, banner: string)
    reads o
  {
    o.Value() == Configured(before, banner)
  }

  /** `genConfig(opts)`: normalises the job record in place and returns it. */
  method GenConfig(opts: BuildJob, banner: string) returns (r: BuildJob)
    modifies opts
    ensures r == opts
    ensures IsConfigured(opts, old(opts.Value()), banner)
  {
    opts.input := opts.input.(plugins := CommonRollupPlugins);
    if opts.build.replace != None {
      opts.input := opts.input.(plugins := [Replace(true, opts.build.replace.value)] + opts.input.plugins);
    }

    var external := OrEmpty(opts.input.external);
    opts.input := opts.input.(external := Some(external + VueExternals));

    opts.output := opts.output.(banner := Some(banner));

    if opts.output.name != Disabled {
      var name := if opts.output.name == Unset || opts.output.name == Named("") then Named(DefaultName) else opts.output.name;
      opts.output := opts.output.(name := name);
    } else {
      opts.output := opts.output.(name := Unset);
    }

    var globals := OrEmptyMap(opts.output.globals);
    opts.output := opts.output.(globals := Some(globals["vue" := "Vue"]));
    r := opts;
  }

  /** `builds.map(genConfig)`: normalises every job in list order and returns
      the same objects. */
  method ConfigureAll(jobs: seq<BuildJob>, banner: string) returns (configs: seq<BuildJob>)
    requires Distinct(jobs)
    modifies set j | j in jobs
    ensures configs == jobs
    ensures forall k :: 0 <= k < |jobs| ==> IsConfigured(jobs[k], old(jobs[k].Value()), banner)
  {
    configs := [];
    var i := 0;
    while i < |jobs|
      invariant 0 <= i <= |jobs|
      invariant configs == jobs[..i]
      invariant forall k :: 0 <= k < i ==> IsConfigured(jobs[k], old(jobs[k].Value()), banner)
      invariant forall k :: i <= k < |jobs| ==> jobs[k].Value() == old(jobs[k].Value())
    {
      var c := GenConfig(jobs[i], banner);
      configs := configs + [c];
      i := i + 1;
    }
  }

  /** A UMD asset job after `genConfig`: no replacement plugin, only the Vue
      externals, its own global name kept, and `vue` mapped to the `Vue` global. */
  lemma ConfiguredUmdJob(root: string, assetType: string, injectName: string, file: string, banner: string)
    ensures var r := Configured(UmdJob(root, assetType, injectName, file), banner);
      && r.input.plugins == CommonRollupPlugins
      && r.input.external == Some(VueExternals)
      && r.output.name == Named("Quasar." + injectName + "." + AssetName(file))
      && r.output.globals == Some(map["vue" := "Vue"])
      && r.output.banner == Some(banner)
  {
    var r := Configured(UmdJob(root, assetType, injectName, file), banner);
    assert r.output.globals.value.Keys == {"vue"};
    assert OrEmpty<string>(None) + VueExternals == VueExternals;
  }

  /** The part of the `full` build that works on jobs: the language and then
      the icon-set assets are appended to `builds`, then every job is normalised. */
  method PrepareFullBuild(builds: BuildList, root: string, banner: string, langFiles: seq<string>, iconSetFiles: seq<string>)
    returns (configs: seq<BuildJob>)
    requires builds.Valid()
    modifies builds, set j | j in builds.jobs
    ensures builds.Valid() && configs == builds.jobs
    ensures |builds.jobs| == |old(builds.jobs)| + |MjsFiles(langFiles)| + |MjsFiles(iconSetFiles)|
    ensures builds.jobs[..|old(builds.jobs)|] == old(builds.jobs)
    ensures forall k :: 0 <= k < |old(builds.jobs)| ==>
      IsConfigured(builds.jobs[k], old(builds.jobs[k].Value()), banner)
    ensures forall k :: 0 <= k < |MjsFiles(langFiles)| ==>
      IsConfigured(builds.jobs[|old(builds.jobs)|..][k], UmdJobs(root, "lang", "lang", langFiles)[k], banner)
    ensures forall k :: 0 <= k < |MjsFiles(iconSetFiles)| ==>
      IsConfigured(builds.jobs[|old(builds.jobs)| + |MjsFiles(langFiles)|..][k],
        UmdJobs(root, "icon-set", "iconSet", iconSetFiles)[k], banner)
  {
    ghost var before := builds.jobs;
    AddUmdAssets(builds, root, "lang", "lang", langFiles);
    ghost var afterLang := builds.jobs;
    ghost var langJobs := afterLang[|before|..];
    AddUmdAssets(builds, root, "icon-set", "iconSet", iconSetFiles);
    ghost var iconJobs := builds.jobs[|afterLang|..];
    assert builds.jobs == before + langJobs + iconJobs by {
      assert builds.jobs == afterLang + iconJobs;
      assert afterLang == before + langJobs;
    }
    forall j | j in builds.jobs
      ensures j in before || fresh(j)
    {
      assert j in before || j in langJobs || j in iconJobs;
    }
    label Added:
    configs := ConfigureAll(builds.jobs, banner);
    forall k | 0 <= k < |langJobs|
      ensures IsConfigured(builds.jobs[|before|..][k], UmdJobs(root, "lang", "lang", langFiles)[k], banner)
    {
      assert builds.jobs[|before|..][k] == langJobs[k] == builds.jobs[|before| + k];
    }
    forall k | 0 <= k < |iconJobs|
      ensures IsConfigured(builds.jobs[|afterLang|..][k], UmdJobs(root, "icon-set", "iconSet", iconSetFiles)[k], banner)
    {
      assert builds.jobs[|afterLang|..][k] == iconJobs[k] == builds.jobs[|afterLang| + k];
    }
  }
}
