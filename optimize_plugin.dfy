/**
 * src/index.js: the `OptimizePlugin` class. The constructor fills in the default options.
 * One `optimize` pass hands every chunk file to the worker pool once per asset object, waits
 * for all the jobs, writes the modern and legacy outputs back into `compilation.assets`,
 * collects the polyfills that the legacy outputs import, and emits them as one shared bundle,
 * built at most once per distinct polyfill list over the plugin's lifetime.
 */
module Plugin {

  import opened Wrappers
  import opened Js
  import OrderedSet
  import opened PluginHelpers

  // ---------------------------------------------------------------------------
  // Options

  /** `DEFAULT_OPTIONS`, in declaration order. */
  const DefaultOptions: seq<Prop> := [
    Prop("concurrency", Undefined),
    Prop("sourceMap", Bool(false)),
    Prop("minify", Bool(true)),
    Prop("downlevel", Bool(true)),
    Prop("verbose", Bool(true)),
    Prop("polyfillsFilename", Str("polyfills.legacy.js"))
  ]

  /** The own enumerable properties of a string primitive: one per character, keyed by index. */
  function CharProps(s: string): seq<Prop> {
    seq(|s|, i requires 0 <= i < |s| => Prop(NatToString(i), Str([s[i]])))
  }

  /** `Object.assign({}, options || {})`: an object is copied, a non-empty string contributes
      its characters, and every other value contributes nothing. */
  function OwnOptions(options: JsValue): seq<Prop> {
    match options
    case Object(props) => Assign([], props)
    case Str(s) => Assign([], CharProps(s))
    case _ => []
  }

  /** The keys of `ds` that `given` lacks, in the order of `ds`: the properties the defaulting
      loop appends, since assigning to a missing key adds it at the end. */
  function MissingKeys(given: seq<Prop>, ds: seq<Prop>): seq<string> {
    if ds == [] then []
    else
      var last := ds[|ds| - 1];
      MissingKeys(given, ds[..|ds| - 1]) + (if HasKey(given, last.key) then [] else [last.key])
  }

  /** The appended keys are exactly the keys of `ds` that `given` lacks. */
  lemma {:induction false} MissingKeysMembers(given: seq<Prop>, ds: seq<Prop>)
    ensures forall k :: k in MissingKeys(given, ds) <==> HasKey(ds, k) && !HasKey(given, k)
    decreases |ds|
  {
    if ds != [] {
      var last := ds[|ds| - 1];
      assert ds == ds[..|ds| - 1] + [last];
      KeysConcat(ds[..|ds| - 1], [last]);
      MissingKeysMembers(given, ds[..|ds| - 1]);
    }
  }

  /** `opts` is `given` with the defaults filled in: it has the keys of both; a key the
      defaults name whose given value is `null` or `undefined` reads the default value, every
      other key reads its given value; and the keys are those of `given`, in their order,
      followed by the default keys `given` lacks, in the order of `defaults`. */
  ghost predicate Defaulted(opts: seq<Prop>, given: seq<Prop>, defaults: seq<Prop>) {
    (forall k :: HasKey(opts, k) <==> HasKey(given, k) || HasKey(defaults, k)) &&
    (forall k :: Get(opts, k) ==
       (if HasKey(defaults, k) && Nullish(Get(given, k)) then Get(defaults, k) else Get(given, k))) &&
    Keys(opts) == Keys(given) + MissingKeys(given, defaults)
  }

  /** The defaulting loop of the constructor, `for (let i in DEFAULT_OPTIONS)`: each default
      option whose given value is `null` or `undefined` takes its default value; every other
      property keeps its value. */
  method WithDefaults(given: seq<Prop>, defaults: seq<Prop>) returns (opts: seq<Prop>)
    requires UniqueKeys(defaults)
    ensures Defaulted(opts, given, defaults)
  {
    opts := given;
    assert defaults[..0] == [];
    for i := 0 to |defaults|
      invariant forall k :: HasKey(opts, k) <==> HasKey(given, k) || HasKey(defaults[..i], k)
      invariant forall k :: Get(opts, k) ==
                  (if HasKey(defaults[..i], k) && Nullish(Get(given, k)) then Get(defaults, k) else Get(given, k))
      invariant Keys(opts) == Keys(given) + MissingKeys(given, defaults[..i])
    {
      var d := defaults[i];
      ghost var before := opts;
      if Nullish(Get(opts, d.key)) {
        opts := Put(opts, d.key, d.value);
      } else {
        assert HasKey(before, d.key);
      }
      GetStep(given, defaults, i, before, opts);
      KeysStep(given, defaults, i, before, opts);
    }
    assert defaults[..|defaults|] == defaults;
  }

  /** One step of the defaulting loop fills the option `ds[i]` names when its value is `null`
      or `undefined`, and changes no other. */
  lemma GetStep(given: seq<Prop>, ds: seq<Prop>, i: nat, before: seq<Prop>, after: seq<Prop>)
    requires i < |ds| && UniqueKeys(ds)
    requires forall k :: HasKey(before, k) <==> HasKey(given, k) || HasKey(ds[..i], k)
    requires forall k :: Get(before, k) ==
               (if HasKey(ds[..i], k) && Nullish(Get(given, k)) then Get(ds, k) else Get(given, k))
    requires after == if Nullish(Get(before, ds[i].key)) then Put(before, ds[i].key, ds[i].value) else before
    ensures forall k :: HasKey(after, k) <==> HasKey(given, k) || HasKey(ds[..i + 1], k)
    ensures forall k :: Get(after, k) ==
              (if HasKey(ds[..i + 1], k) && Nullish(Get(given, k)) then Get(ds, k) else Get(given, k))
  {
    PrefixKeys(ds, i);
    UniqueGet(ds, i);
  }

  /** One step of the defaulting loop keeps the key list `Keys(given)` followed by the
      missing keys: a key `given` has is overwritten in place or left alone, a key it lacks is
      appended. */
  lemma KeysStep(given: seq<Prop>, ds: seq<Prop>, i: nat, before: seq<Prop>, after: seq<Prop>)
    requires i < |ds|
    requires Keys(before) == Keys(given) + MissingKeys(given, ds[..i])
    requires HasKey(before, ds[i].key) <==> HasKey(given, ds[i].key)
    requires Keys(after) == if HasKey(before, ds[i].key) then Keys(before) else Keys(before) + [ds[i].key]
    ensures Keys(after) == Keys(given) + MissingKeys(given, ds[..i + 1])
  {
    var m := MissingKeys(given, ds[..i]);
    MissingKeysSnoc(given, ds, i);
    if HasKey(given, ds[i].key) {
      assert m + [] == m;
    } else {
      assert (Keys(given) + m) + [ds[i].key] == Keys(given) + (m + [ds[i].key]);
    }
  }

  lemma MissingKeysSnoc(given: seq<Prop>, ds: seq<Prop>, i: nat)
    requires i < |ds|
    ensures MissingKeys(given, ds[..i + 1]) ==
              MissingKeys(given, ds[..i]) + (if HasKey(given, ds[i].key) then [] else [ds[i].key])
  {
    assert ds[..i + 1][..i] == ds[..i];
  }

  lemma DefaultOptionsUnique()
    ensures UniqueKeys(DefaultOptions)
  {
  }

  lemma PrefixKeys(ps: seq<Prop>, i: nat)
    requires i < |ps|
    ensures forall k :: HasKey(ps[..i + 1], k) <==> HasKey(ps[..i], k) || k == ps[i].key
  {
    assert ps[..i + 1] == ps[..i] + [ps[i]];
    KeysConcat(ps[..i], [ps[i]]);
  }

  lemma UniqueGet(ps: seq<Prop>, i: nat)
    requires i < |ps| && UniqueKeys(ps)
    ensures Get(ps, ps[i].key) == ps[i].value
    ensures !HasKey(ps[..i], ps[i].key)
  {
    var k := ps[i].key;
    assert Keys(ps)[i] == k;
    var l := LastIndexOf(Keys(ps), k);
    assert l == i by {
      assert Keys(ps)[l] == ps[l].key;
    }
    forall j | 0 <= j < i
      ensures Keys(ps[..i])[j] != k
    {
      assert Keys(ps[..i])[j] == ps[j].key;
    }
  }

  /** `JSON.stringify(options)` of an options object. */
  function SerializedOptions(opts: seq<Prop>): (s: string)
    ensures s != "" && s[0] == '{' && s[|s| - 1] == '}'
  {
    JsonStringify(Object(opts)).value
  }

  /** An option whose value is `undefined`, such as the defaulted `concurrency`, leaves no
      trace in the serialized options, and so none in the chunk hash. */
  lemma {:induction false} UndefinedOptionNotSerialized(a: seq<Prop>, k: string, b: seq<Prop>)
    ensures JsonMembers(a + [Prop(k, Undefined)] + b) == JsonMembers(a + b)
    decreases |a|
  {
    var u := Prop(k, Undefined);
    if a == [] {
      assert a + [u] + b == [u] + b;
      assert ([u] + b)[1..] == b;
      assert a + b == b;
    } else {
      UndefinedOptionNotSerialized(a[1..], k, b);
      assert (a + [u] + b)[0] == a[0];
      assert (a + [u] + b)[1..] == a[1..] + [u] + b;
      assert (a + b)[0] == a[0];
      assert (a + b)[1..] == a[1..] + b;
    }
  }

  // ---------------------------------------------------------------------------
  // Collaborators

  /** What `generatePolyfillsChunk` resolves with: the Rollup output chunk's `code` and `map`. */
  datatype Bundle = Bundle(code: string, sourceMap: JsValue)

  /** The worker pool, seen through the jobs handed to it: `enqueue(original)` resolves with
      what the worker's `process(original)` resolves with, or rejects. */
  class WorkerPool {
    const process: Original -> Result<WorkerResult, string>
    var submitted: seq<Original>

    constructor (process: Original -> Result<WorkerResult, string>)
      ensures this.process == process && submitted == []
    {
      this.process := process;
      submitted := [];
    }

    method Enqueue(original: Original) returns (r: Result<WorkerResult, string>)
      modifies this
      ensures submitted == old(submitted) + [original]
      ensures r == process(original)
    {
      submitted := submitted + [original];
      r := process(original);
    }
  }

  /** What the worker promises of a job: without `downlevel` there is no legacy output and no
      polyfill; with it there is a legacy output. */
  ghost predicate WorkerContract(process: Original -> Result<WorkerResult, string>) {
    forall o :: process(o).Success? ==>
      (Truthy(o.options.downlevel) <==> process(o).value.legacy.Some?) &&
      (!Truthy(o.options.downlevel) ==> process(o).value.polyfills == [])
  }

  /** A webpack compilation, seen through its `assets` dictionary. */
  class Compilation {
    var assets: map<string, Source>

    constructor (assets: map<string, Source>)
      ensures this.assets == assets
    {
      this.assets := assets;
    }
  }

  // ---------------------------------------------------------------------------
  // The files of one pass

  /** `Array.from(chunks).reduce((acc, chunk) => acc.concat(Array.from(chunk.files || [])), [])`. */
  function ChunkFiles(chunks: seq<Option<seq<string>>>): seq<string>
    decreases |chunks|
  {
    if chunks == [] then []
    else
      var last := chunks[|chunks| - 1];
      ChunkFiles(chunks[..|chunks| - 1]) + (if last.Some? then last.value else [])
  }

  /** `[...chunkFiles, ...chunkAssets]`. */
  function Files(chunks: seq<Option<seq<string>>>, additional: Option<seq<string>>): seq<string> {
    ChunkFiles(chunks) + (if additional.Some? then additional.value else [])
  }

  /** The files of a pass are the files of the chunks in chunk order, then the additional chunk
      assets: splitting the chunk list splits the file list. */
  lemma {:induction false} ChunkFilesConcat(a: seq<Option<seq<string>>>, b: seq<Option<seq<string>>>)
    ensures ChunkFiles(a + b) == ChunkFiles(a) + ChunkFiles(b)
    decreases |b|
  {
    if b == [] {
      assert a + b == a;
    } else {
      var front := b[..|b| - 1];
      var last := b[|b| - 1];
      ChunkFilesConcat(a, front);
      assert (a + b)[..|a + b| - 1] == a + front;
      assert (a + b)[|a + b| - 1] == last;
    }
  }

  /** A file is in the pass exactly when some chunk lists it or it is an additional asset. */
  lemma {:induction false} FilesMembership(chunks: seq<Option<seq<string>>>, additional: Option<seq<string>>, f: string)
    ensures f in Files(chunks, additional) <==>
              (exists i :: 0 <= i < |chunks| && chunks[i].Some? && f in chunks[i].value) ||
              (additional.Some? && f in additional.value)
  {
    ChunkFilesMembership(chunks, f);
  }

  lemma {:induction false} ChunkFilesMembership(chunks: seq<Option<seq<string>>>, f: string)
    ensures f in ChunkFiles(chunks) <==> exists i :: 0 <= i < |chunks| && chunks[i].Some? && f in chunks[i].value
    decreases |chunks|
  {
    if chunks != [] {
      var front := chunks[..|chunks| - 1];
      ChunkFilesMembership(front, f);
      var n := |chunks| - 1;
      if exists i :: 0 <= i < |chunks| && chunks[i].Some? && f in chunks[i].value {
        var i :| 0 <= i < |chunks| && chunks[i].Some? && f in chunks[i].value;
        if i < n {
          assert front[i] == chunks[i];
        }
      }
      if exists i :: 0 <= i < |front| && front[i].Some? && f in front[i].value {
        var i :| 0 <= i < |front| && front[i].Some? && f in front[i].value;
        assert chunks[i] == front[i];
      }
    }
  }

  // ---------------------------------------------------------------------------
  // Jobs

  /** `compilation.assets[file] = ...` and `delete compilation.assets[...]` use the property key
      `String(legacyFile)`: `"undefined"` when a result has no legacy file. */
  function LegacyKey(legacyFile: Option<string>): string {
    if legacyFile.Some? then legacyFile.value else "undefined"
  }

  /** Whether `asset.sourceAndMap` is a method of the asset. */
  predicate HasSourceAndMap(s: Source) {
    match s
    case Asset(_, _, _, has) => has
    case _ => true
  }

  /** The map half of `asset.sourceAndMap()`. */
  function MapOf(s: Source): JsValue {
    match s
    case Asset(_, _, m, _) => m
    case RawSource(_) => Null
    case SourceMapSource(_, _, m, _, _) => m
  }

  /** The options of every job of a pass. */
  function TaskOf(opts: seq<Prop>, corejsVersion: JsValue): TaskOptions {
    TaskOptions(corejsVersion, Get(opts, "minify"), Get(opts, "downlevel"), Get(opts, "verbose"))
  }

  /** `{ file, source, map, options }` of a file and its asset: `sourceAndMap()` when the
      `sourceMap` option is on and the asset has it, `source()` and no map otherwise. */
  function OriginalOf(file: string, asset: Source, opts: seq<Prop>, task: TaskOptions): Original {
    if Truthy(Get(opts, "sourceMap")) && HasSourceAndMap(asset) then Original(file, asset.code, MapOf(asset), task)
    else Original(file, asset.code, Undefined, task)
  }

  /** `result.then(this.buildResultSources.bind(this, original))`. */
  function Settle(original: Original, result: Result<WorkerResult, string>): Result<Transformed, string> {
    match result
    case Success(w) => Success(BuildResultSources(original, w))
    case Failure(e) => Failure(e)
  }

  /** What `optimize` throws for a file with no asset: with a truthy `sourceMap` option it reads
      `asset.sourceAndMap` first, otherwise `asset.source`. */
  function AssetTypeError(opts: seq<Prop>): string {
    "TypeError: Cannot read properties of undefined (reading '" +
      (if Truthy(Get(opts, "sourceMap")) then "sourceAndMap" else "source") + "')"
  }

  /** The number of files before the first one that is not in `assets`. */
  function PresentPrefix(files: seq<string>, assets: map<string, Source>): (n: nat)
    ensures n <= |files|
    ensures forall j :: 0 <= j < n ==> files[j] in assets
    ensures n < |files| ==> files[n] !in assets
  {
    if files == [] || files[0] !in assets then 0 else 1 + PresentPrefix(files[1..], assets)
  }

  /** The assets of files that are all present. */
  function Srcs(files: seq<string>, assets: map<string, Source>): (r: seq<Source>)
    requires forall j :: 0 <= j < |files| ==> files[j] in assets
    ensures |r| == |files|
    ensures forall j :: 0 <= j < |files| ==> r[j] == assets[files[j]]
  {
    seq(|files|, j requires 0 <= j < |files| => assets[files[j]])
  }

  /** The jobs a pass over `files` with assets `srcs` enqueues, in the order it enqueues them:
      a file whose asset an earlier file already had enqueues nothing. */
  function Jobs(files: seq<string>, srcs: seq<Source>, opts: seq<Prop>, task: TaskOptions): seq<Original>
    requires |files| == |srcs|
    decreases |srcs|
  {
    if srcs == [] then []
    else
      var n := |srcs| - 1;
      Jobs(files[..n], srcs[..n], opts, task) +
      (if srcs[n] in srcs[..n] then [] else [OriginalOf(files[n], srcs[n], opts, task)])
  }

  /** The position of the first file that has the same asset as file `i`. */
  function FirstWith(srcs: seq<Source>, i: nat): (f: nat)
    requires i < |srcs|
    ensures f <= i && srcs[f] == srcs[i]
    ensures forall j :: 0 <= j < f ==> srcs[j] != srcs[i]
  {
    OrderedSet.FirstIndex(srcs[..i + 1], srcs[i])
  }

  /** The pending result of the job enqueued for file `f`. */
  function JobAt(files: seq<string>, srcs: seq<Source>, f: nat, opts: seq<Prop>, task: TaskOptions,
                 process: Original -> Result<WorkerResult, string>): Result<Transformed, string>
    requires f < |srcs| <= |files|
  {
    var original := OriginalOf(files[f], srcs[f], opts, task);
    Settle(original, process(original))
  }

  /** The jobs enqueued before `optimize` returns or throws: those of the files up to the first
      missing asset. */
  function Dispatched(files: seq<string>, assets: map<string, Source>, opts: seq<Prop>, task: TaskOptions): seq<Original> {
    var n := PresentPrefix(files, assets);
    Jobs(files[..n], Srcs(files[..n], assets), opts, task)
  }

  /** `Promise.all(pending)`: all values in order, or the first rejection. */
  function JoinAll(ps: seq<Result<Transformed, string>>): (r: Result<seq<Transformed>, string>)
    ensures r.Success? <==> forall i :: 0 <= i < |ps| ==> ps[i].Success?
    ensures r.Success? ==> |r.value| == |ps| && forall i :: 0 <= i < |ps| ==> r.value[i] == ps[i].value
    ensures r.Failure? ==> exists i :: 0 <= i < |ps| && ps[i] == Failure(r.error) &&
                                       forall j :: 0 <= j < i ==> ps[j].Success?
  {
    if ps == [] then Success([])
    else match ps[0]
      case Failure(e) => Failure(e)
      case Success(t) =>
        match JoinAll(ps[1..])
        case Failure(e) => Failure(e)
        case Success(ts) => Success([t] + ts)
  }

  /** The transformed list a pass awaits, or why it rejects before writing anything. */
  function Settled(files: seq<string>, assets: map<string, Source>, opts: seq<Prop>, task: TaskOptions,
                   process: Original -> Result<WorkerResult, string>): Result<seq<Transformed>, string>
  {
    if PresentPrefix(files, assets) < |files| then Failure(AssetTypeError(opts))
    else
      var srcs := Srcs(files, assets);
      JoinAll(seq(|files|, i requires 0 <= i < |files| => JobAt(files, srcs, FirstWith(srcs, i), opts, task, process)))
  }

  /** Within one pass the pool gets exactly one job per distinct asset, in the order the assets
      are first met, and the job carries the name of the first file with that asset. */
  lemma {:induction false} JobsOncePerAsset(files: seq<string>, srcs: seq<Source>, opts: seq<Prop>, task: TaskOptions)
    requires |files| == |srcs|
    ensures |Jobs(files, srcs, opts, task)| == |OrderedSet.FromSeq(srcs)|
    ensures forall k :: 0 <= k < |Jobs(files, srcs, opts, task)| ==>
              OrderedSet.FromSeq(srcs)[k] in srcs &&
              Jobs(files, srcs, opts, task)[k] ==
                OriginalOf(files[OrderedSet.FirstIndex(srcs, OrderedSet.FromSeq(srcs)[k])], OrderedSet.FromSeq(srcs)[k], opts, task)
    decreases |srcs|
  {
    if srcs != [] {
      var n := |srcs| - 1;
      var front := srcs[..n];
      var a := srcs[n];
      JobsOncePerAsset(files[..n], front, opts, task);
      OrderedSet.FromSeqFirstSeenOrder(front);
      assert srcs == front + [a];
      OrderedSet.AddAllSnoc([], front, a);
      var d0 := OrderedSet.FromSeq(front);
      var d := OrderedSet.FromSeq(srcs);
      assert d == OrderedSet.Add(d0, a);
      var j0 := Jobs(files[..n], front, opts, task);
      var j := Jobs(files, srcs, opts, task);
      assert j == j0 + (if a in front then [] else [OriginalOf(files[n], a, opts, task)]);
      assert |j| == |d|;
      forall k | 0 <= k < |j|
        ensures d[k] in srcs
        ensures j[k] == OriginalOf(files[OrderedSet.FirstIndex(srcs, d[k])], d[k], opts, task)
      {
        if k < |j0| {
          assert j[k] == j0[k] && d[k] == d0[k] && d0[k] in front;
          OrderedSet.FirstIndexPrefix(front, [a], d0[k]);
          assert files[..n][OrderedSet.FirstIndex(front, d0[k])] == files[OrderedSet.FirstIndex(front, d0[k])];
        } else {
          assert a !in front && d[k] == a && j[k] == OriginalOf(files[n], a, opts, task);
          assert OrderedSet.FirstIndex(srcs, a) == n;
        }
      }
    }
  }

  // ---------------------------------------------------------------------------
  // Write-back

  /** `compilation.assets[file] = modern`, then the legacy output is written under its key,
      or, without one, the key `String(legacyFile)` is deleted. */
  function Write(assets: map<string, Source>, t: Transformed): map<string, Source> {
    var withModern := assets[t.file := t.modern];
    if t.legacy.Some? then withModern[LegacyKey(t.legacyFile) := t.legacy.value]
    else withModern - {LegacyKey(t.legacyFile)}
  }

  /** The write-back `forEach` over the transformed list. */
  function WriteBack(assets: map<string, Source>, ts: seq<Transformed>): map<string, Source>
    decreases |ts|
  {
    if ts == [] then assets else Write(WriteBack(assets, ts[..|ts| - 1]), ts[|ts| - 1])
  }

  /** Whether a result writes or deletes key `k`. */
  predicate Touches(t: Transformed, k: string) {
    k == t.file || k == LegacyKey(t.legacyFile)
  }

  /** A key that no result writes or deletes keeps its asset, or stays absent. */
  lemma {:induction false} WriteBackUntouched(assets: map<string, Source>, ts: seq<Transformed>, k: string)
    requires forall i :: 0 <= i < |ts| ==> !Touches(ts[i], k)
    ensures k in WriteBack(assets, ts) <==> k in assets
    ensures k in assets ==> WriteBack(assets, ts)[k] == assets[k]
    decreases |ts|
  {
    if ts != [] {
      WriteBackUntouched(assets, ts[..|ts| - 1], k);
    }
  }

  lemma WriteBackSnoc(assets: map<string, Source>, ts: seq<Transformed>, t: Transformed)
    ensures WriteBack(assets, ts + [t]) == Write(WriteBack(assets, ts), t)
  {
    assert (ts + [t])[..|ts|] == ts;
  }

  /** The last result that touches a key decides it: its modern output under its file name,
      its legacy output under its legacy file name. */
  lemma {:induction false} WriteBackLastWrite(assets: map<string, Source>, ts: seq<Transformed>, i: nat)
    requires i < |ts|
    requires forall j :: i < j < |ts| ==> !Touches(ts[j], ts[i].file)
    requires LegacyKey(ts[i].legacyFile) != ts[i].file
    ensures ts[i].file in WriteBack(assets, ts) && WriteBack(assets, ts)[ts[i].file] == ts[i].modern
    ensures ts[i].legacy.Some? && (forall j :: i < j < |ts| ==> !Touches(ts[j], LegacyKey(ts[i].legacyFile))) ==>
              LegacyKey(ts[i].legacyFile) in WriteBack(assets, ts) &&
              WriteBack(assets, ts)[LegacyKey(ts[i].legacyFile)] == ts[i].legacy.value
    decreases |ts|
  {
    var n := |ts| - 1;
    var prev := WriteBack(assets, ts[..n]);
    assert WriteBack(assets, ts) == Write(prev, ts[n]);
    if i < n {
      assert ts[..n][i] == ts[i];
      assert forall j :: i < j < n ==> ts[..n][j] == ts[j];
      WriteBackLastWrite(assets, ts[..n], i);
      assert !Touches(ts[n], ts[i].file);
    }
  }

  /** When no result has a legacy output, the write-back deletes only the key `"undefined"`:
      every asset and every file name is present afterwards except that one. */
  lemma {:induction false} WriteBackWithoutLegacy(assets: map<string, Source>, ts: seq<Transformed>, k: string)
    requires ts != []
    requires forall i :: 0 <= i < |ts| ==> ts[i].legacy.None? && ts[i].legacyFile.None?
    ensures k in WriteBack(assets, ts) <==>
              k != "undefined" && (k in assets || exists i :: 0 <= i < |ts| && ts[i].file == k)
    decreases |ts|
  {
    var n := |ts| - 1;
    if n > 0 {
      WriteBackWithoutLegacy(assets, ts[..n], k);
      if exists i :: 0 <= i < |ts| && ts[i].file == k {
        var i :| 0 <= i < |ts| && ts[i].file == k;
        if i < n {
          assert ts[..n][i].file == k;
        }
      }
      if exists i :: 0 <= i < n && ts[..n][i].file == k {
        var i :| 0 <= i < n && ts[..n][i].file == k;
        assert ts[i].file == k;
      }
    }
  }

  // ---------------------------------------------------------------------------
  // Polyfill aggregation

  /** One polyfill of one result, with that result's `legacyFile`. */
  datatype Use = Use(polyfill: string, legacyFile: Option<string>)

  function UsesOf(t: Transformed): seq<Use> {
    seq(|t.polyfills|, j requires 0 <= j < |t.polyfills| => Use(t.polyfills[j], t.legacyFile))
  }

  /** Every polyfill of every result, in `transformed` order. */
  function Uses(ts: seq<Transformed>): seq<Use>
    decreases |ts|
  {
    if ts == [] then [] else Uses(ts[..|ts| - 1]) + UsesOf(ts[|ts| - 1])
  }

  function PolyfillsOf(us: seq<Use>): (ps: seq<string>)
    ensures |ps| == |us| && forall i :: 0 <= i < |us| ==> ps[i] == us[i].polyfill
  {
    seq(|us|, i requires 0 <= i < |us| => us[i].polyfill)
  }

  /** `Array.from(allPolyfills)`. */
  function AllPolyfills(ts: seq<Transformed>): seq<string> {
    OrderedSet.FromSeq(PolyfillsOf(Uses(ts)))
  }

  /** `polyfillReasons` after the uses `us`: each use appends its `legacyFile` to its
      polyfill's list, which starts empty. */
  function Reasons(us: seq<Use>): map<string, seq<Option<string>>>
    decreases |us|
  {
    if us == [] then map[]
    else
      var r := Reasons(us[..|us| - 1]);
      var u := us[|us| - 1];
      r[u.polyfill := (if u.polyfill in r then r[u.polyfill] else []) + [u.legacyFile]]
  }

  /** The `legacyFile` of each use of polyfill `p`, in order. */
  function ReasonsFor(us: seq<Use>, p: string): seq<Option<string>>
    decreases |us|
  {
    if us == [] then []
    else (if us[0].polyfill == p then [us[0].legacyFile] else []) + ReasonsFor(us[1..], p)
  }

  lemma {:induction false} ReasonsForSnoc(us: seq<Use>, u: Use, p: string)
    ensures ReasonsFor(us + [u], p) == ReasonsFor(us, p) + (if u.polyfill == p then [u.legacyFile] else [])
    decreases |us|
  {
    if us == [] {
      assert us + [u] == [u];
      assert [u][1..] == [];
    } else {
      ReasonsForSnoc(us[1..], u, p);
      assert (us + [u])[1..] == us[1..] + [u];
    }
  }

  /** `polyfillReasons` has a key for exactly the polyfills found, and lists for each the
      `legacyFile` of every use, in order, repeats included. */
  lemma {:induction false} ReasonsSpec(us: seq<Use>, p: string)
    ensures p in Reasons(us) <==> p in PolyfillsOf(us)
    ensures p in Reasons(us) ==> Reasons(us)[p] == ReasonsFor(us, p)
    decreases |us|
  {
    if us != [] {
      var front := us[..|us| - 1];
      var u := us[|us| - 1];
      ReasonsSpec(front, p);
      assert us == front + [u];
      ReasonsForSnoc(front, u, p);
      if p !in Reasons(front) {
        assert ReasonsFor(front, p) == [] by {
          ReasonsForAbsent(front, p);
        }
      }
      assert PolyfillsOf(us) == PolyfillsOf(front) + [u.polyfill];
    }
  }

  lemma {:induction false} ReasonsForAbsent(us: seq<Use>, p: string)
    requires p !in PolyfillsOf(us)
    ensures ReasonsFor(us, p) == []
    decreases |us|
  {
    if us != [] {
      assert PolyfillsOf(us[1..]) == PolyfillsOf(us)[1..];
      ReasonsForAbsent(us[1..], p);
    }
  }

  /** The list of all polyfills holds each polyfill of each result once, in first-seen order,
      and `polyfillReasons` has a key for exactly these. */
  lemma AggregationSpec(ts: seq<Transformed>)
    ensures OrderedSet.NoDups(AllPolyfills(ts))
    ensures forall p :: p in AllPolyfills(ts) <==> exists i :: 0 <= i < |ts| && p in ts[i].polyfills
    ensures forall p :: p in AllPolyfills(ts) <==> p in Reasons(Uses(ts))
    ensures forall p :: p in AllPolyfills(ts) <==> p in PolyfillsOf(Uses(ts))
    ensures forall i, j :: 0 <= i < j < |AllPolyfills(ts)| ==>
              OrderedSet.FirstIndex(PolyfillsOf(Uses(ts)), AllPolyfills(ts)[i]) <
              OrderedSet.FirstIndex(PolyfillsOf(Uses(ts)), AllPolyfills(ts)[j])
  {
    var ps := PolyfillsOf(Uses(ts));
    OrderedSet.FromSeqFirstSeenOrder(ps);
    forall p
      ensures p in ps <==> exists i :: 0 <= i < |ts| && p in ts[i].polyfills
      ensures p in ps <==> p in Reasons(Uses(ts))
    {
      UsesMembership(ts, p);
      ReasonsSpec(Uses(ts), p);
    }
  }

  lemma {:induction false} UsesMembership(ts: seq<Transformed>, p: string)
    ensures p in PolyfillsOf(Uses(ts)) <==> exists i :: 0 <= i < |ts| && p in ts[i].polyfills
    decreases |ts|
  {
    if ts != [] {
      var n := |ts| - 1;
      UsesMembership(ts[..n], p);
      var us0 := Uses(ts[..n]);
      assert PolyfillsOf(Uses(ts)) == PolyfillsOf(us0) + ts[n].polyfills;
      if exists i :: 0 <= i < |ts| && p in ts[i].polyfills {
        var i :| 0 <= i < |ts| && p in ts[i].polyfills;
        if i < n {
          assert ts[..n][i] == ts[i];
        }
      }
      if exists i :: 0 <= i < n && p in ts[..n][i].polyfills {
        var i :| 0 <= i < n && p in ts[..n][i].polyfills;
        assert ts[i] == ts[..n][i];
      }
    }
  }

  /** A pass whose results have no polyfills has none to bundle. */
  lemma {:induction false} NoUsesNoPolyfills(ts: seq<Transformed>)
    requires forall i :: 0 <= i < |ts| ==> ts[i].polyfills == []
    ensures AllPolyfills(ts) == []
  {
    forall p ensures p !in PolyfillsOf(Uses(ts)) {
      UsesMembership(ts, p);
    }
    OrderedSet.FromSeqFirstSeenOrder(PolyfillsOf(Uses(ts)));
  }

  // ---------------------------------------------------------------------------
  // The shared polyfills asset

  /** `this.options.polyfillsFilename || 'polyfills.legacy.js'`, as a property key. */
  function PolyfillsFilename(opts: seq<Prop>): string {
    var v := Get(opts, "polyfillsFilename");
    if Truthy(v) then ToString(v) else "polyfills.legacy.js"
  }

  /** The cache key of a polyfill list: `polyfills.join('\n')`. */
  function PolyfillsKey(polyfills: seq<string>): string {
    Join(polyfills, "\n")
  }

  /** Two polyfill lists share a cache entry exactly when they are the same list, as long as no
      specifier contains a newline. */
  lemma PolyfillsKeyInjective(a: seq<string>, b: seq<string>)
    requires a != [] && b != []
    requires forall i :: 0 <= i < |a| ==> '\n' !in a[i]
    requires forall i :: 0 <= i < |b| ==> '\n' !in b[i]
    ensures PolyfillsKey(a) == PolyfillsKey(b) <==> a == b
  {
    assert "\n" == ['\n'];
    JoinInjective(a, b, '\n');
  }

  /** The key keeps discovery order: the same two polyfills found in the other order make
      another key, and so another bundle. */
  lemma PolyfillsKeyOrderSensitive(a: string, b: string)
    requires a != b && '\n' !in a && '\n' !in b
    ensures PolyfillsKey([a, b]) != PolyfillsKey([b, a])
  {
    var x := a + "\n" + b;
    var y := b + "\n" + a;
    assert [a, b][1..] == [b] && [b, a][1..] == [a];
    assert PolyfillsKey([a, b]) == x;
    assert PolyfillsKey([b, a]) == y;
    if |a| == |b| {
      assert x[..|a|] == a;
      assert y[..|a|] == b;
    } else if |a| < |b| {
      assert x[|a|] == '\n';
      assert y[|a|] == b[|a|];
    } else {
      assert y[|b|] == '\n';
      assert x[|b|] == a[|b|];
    }
  }

  /** `new SourceMapSource(output.code, polyfillsFilename, output.map)` of a bundle. */
  function PolyfillsSource(output: Result<Bundle, string>, polyfillsFilename: string): Result<Source, string> {
    match output
    case Success(b) => Success(SourceMapSource(b.code, polyfillsFilename, b.sourceMap, None, Undefined))
    case Failure(e) => Failure(e)
  }

  /** The assets after the write-back and the polyfills step, given the bundle the pass gets:
      the polyfills asset is written when there are polyfills and the bundle resolves, and
      deleted when there are none. */
  function AfterPass(assets: map<string, Source>, ts: seq<Transformed>, polyfillsFilename: string,
                     bundled: Result<Bundle, string>): map<string, Source>
  {
    var written := WriteBack(assets, ts);
    if AllPolyfills(ts) == [] then written - {polyfillsFilename}
    else match PolyfillsSource(bundled, polyfillsFilename)
      case Success(s) => written[polyfillsFilename := s]
      case Failure(_) => written
  }

  /** When the bundle resolves, the shared polyfills asset exists exactly when some result has
      a polyfill; it is named after the option and every other key is as the write-back left it. */
  lemma PolyfillsAssetIffPolyfills(assets: map<string, Source>, ts: seq<Transformed>, polyfillsFilename: string,
                                   b: Bundle)
    ensures polyfillsFilename in AfterPass(assets, ts, polyfillsFilename, Success(b)) <==>
              exists i :: 0 <= i < |ts| && ts[i].polyfills != []
    ensures polyfillsFilename in AfterPass(assets, ts, polyfillsFilename, Success(b)) ==>
              AfterPass(assets, ts, polyfillsFilename, Success(b))[polyfillsFilename] ==
                SourceMapSource(b.code, polyfillsFilename, b.sourceMap, None, Undefined)
    ensures forall k :: k != polyfillsFilename ==>
              (k in AfterPass(assets, ts, polyfillsFilename, Success(b)) <==> k in WriteBack(assets, ts)) &&
              (k in WriteBack(assets, ts) ==> AfterPass(assets, ts, polyfillsFilename, Success(b))[k] == WriteBack(assets, ts)[k])
  {
    AggregationSpec(ts);
    if exists i :: 0 <= i < |ts| && ts[i].polyfills != [] {
      var i :| 0 <= i < |ts| && ts[i].polyfills != [];
      assert ts[i].polyfills[0] in ts[i].polyfills;
      assert ts[i].polyfills[0] in AllPolyfills(ts);
    } else {
      NoUsesNoPolyfills(ts);
    }
  }

  /** The shared filename falls back to `polyfills.legacy.js` when the option is falsy. */
  lemma PolyfillsFilenameDefault(opts: seq<Prop>)
    ensures !Truthy(Get(opts, "polyfillsFilename")) ==> PolyfillsFilename(opts) == "polyfills.legacy.js"
    ensures Get(opts, "polyfillsFilename") == Str("polyfills.legacy.js") ==> PolyfillsFilename(opts) == "polyfills.legacy.js"
    ensures forall s :: Get(opts, "polyfillsFilename") == Str(s) && s != "" ==> PolyfillsFilename(opts) == s
  {
  }

  /** A build with one entry chunk whose legacy output needed a polyfill ends with exactly
      three assets: the modern file, its legacy counterpart and the shared polyfills asset. */
  lemma SingleEntryAssets(file: string, asset: Source, modern: Source, legacy: Source, polyfill: string,
                          polyfillsFilename: string, b: Bundle)
    ensures var t := Transformed(file, Some(ToLegacyFilename(file)), modern, Some(legacy), [polyfill]);
            AfterPass(map[file := asset], [t], polyfillsFilename, Success(b)).Keys ==
              {file, ToLegacyFilename(file), polyfillsFilename}
  {
    var t := Transformed(file, Some(ToLegacyFilename(file)), modern, Some(legacy), [polyfill]);
    assert [t][..0] == [];
    assert WriteBack(map[file := asset], [t]) == Write(map[file := asset], t);
    assert Uses([t]) == [Use(polyfill, t.legacyFile)] by {
      assert [t][..0] == [];
    }
    assert PolyfillsOf(Uses([t])) == [polyfill];
    assert AllPolyfills([t]) != [] by {
      AggregationSpec([t]);
      assert polyfill in AllPolyfills([t]);
    }
  }

  /** The polyfills cache after the calls `generated`: each key was built by exactly one call,
      with a list that has that key, and its entry is what that call gave. */
  ghost predicate CacheBuiltOnce(generated: seq<seq<string>>, cache: map<string, Result<Bundle, string>>,
                                 build: seq<string> -> Result<Bundle, string>)
  {
    (forall i, j :: 0 <= i < j < |generated| ==> PolyfillsKey(generated[i]) != PolyfillsKey(generated[j])) &&
    (forall key :: key in cache <==> exists i :: 0 <= i < |generated| && PolyfillsKey(generated[i]) == key) &&
    (forall i :: 0 <= i < |generated| ==>
       PolyfillsKey(generated[i]) in cache && cache[PolyfillsKey(generated[i])] == build(generated[i]))
  }

  /** Building a list whose key is not cached yet, and storing the result, keeps every key
      built once. */
  lemma CacheInsert(generated: seq<seq<string>>, cache: map<string, Result<Bundle, string>>,
                    build: seq<string> -> Result<Bundle, string>, polyfills: seq<string>)
    requires CacheBuiltOnce(generated, cache, build)
    requires PolyfillsKey(polyfills) !in cache
    ensures CacheBuiltOnce(generated + [polyfills], cache[PolyfillsKey(polyfills) := build(polyfills)], build)
  {
    var key := PolyfillsKey(polyfills);
    var g := generated + [polyfills];
    var c := cache[key := build(polyfills)];
    forall i, j | 0 <= i < j < |g|
      ensures PolyfillsKey(g[i]) != PolyfillsKey(g[j])
    {
      assert g[i] == generated[i];
      if j < |generated| {
        assert g[j] == generated[j];
      }
    }
    forall k
      ensures k in c <==> exists i :: 0 <= i < |g| && PolyfillsKey(g[i]) == k
    {
      if k == key {
        assert g[|generated|] == polyfills;
      }
      if k in cache {
        var i :| 0 <= i < |generated| && PolyfillsKey(generated[i]) == k;
        assert g[i] == generated[i];
      }
      if exists i :: 0 <= i < |g| && PolyfillsKey(g[i]) == k {
        var i :| 0 <= i < |g| && PolyfillsKey(g[i]) == k;
        if i < |generated| {
          assert g[i] == generated[i];
        }
      }
    }
    forall i | 0 <= i < |g|
      ensures PolyfillsKey(g[i]) in c && c[PolyfillsKey(g[i])] == build(g[i])
    {
      if i < |generated| {
        assert g[i] == generated[i];
      }
    }
  }

  // ---------------------------------------------------------------------------
  // The outcome of a pass and the output summary

  /** What `showOutputSummary` throws when `polyfillsAsset` is `undefined`. */
  const SummaryTypeError := "TypeError: Cannot read properties of undefined (reading 'source')"

  /** The outcome of a pass as the source is written: `None` when `optimize` resolves. With
      `verbose` on and no polyfills, `showOutputSummary` reads `polyfillsAsset.source()` of
      `undefined` and the pass rejects, after the assets were written. */
  function OutcomeAsWritten(settled: Result<seq<Transformed>, string>, bundled: Result<Bundle, string>, verbose: JsValue): Option<string> {
    match settled
    case Failure(e) => Some(e)
    case Success(ts) =>
      if AllPolyfills(ts) != [] && bundled.Failure? then Some(bundled.error)
      else if Truthy(verbose) && AllPolyfills(ts) == [] then Some(SummaryTypeError)
      else None
  }

  /** The outcome of a pass with the summary reporting an empty polyfill bundle instead of
      throwing: a pass rejects only when a job or the bundle does. */
  function Outcome(settled: Result<seq<Transformed>, string>, bundled: Result<Bundle, string>): Option<string> {
    match settled
    case Failure(e) => Some(e)
    case Success(ts) => if AllPolyfills(ts) != [] && bundled.Failure? then Some(bundled.error) else None
  }

  /** With `downlevel` off no result has polyfills, so, with the default `verbose: true`,
      every pass whose jobs all succeed rejects as written. */
  lemma VerboseWithoutDownlevelRejects(files: seq<string>, assets: map<string, Source>, opts: seq<Prop>,
                                       corejsVersion: JsValue, process: Original -> Result<WorkerResult, string>,
                                       bundled: Result<Bundle, string>)
    requires WorkerContract(process)
    requires !Truthy(Get(opts, "downlevel")) && Truthy(Get(opts, "verbose"))
    requires Settled(files, assets, opts, TaskOf(opts, corejsVersion), process).Success?
    ensures OutcomeAsWritten(Settled(files, assets, opts, TaskOf(opts, corejsVersion), process), bundled, Get(opts, "verbose")) ==
              Some(SummaryTypeError)
  {
    NoDownlevelNoBundle(files, assets, opts, TaskOf(opts, corejsVersion), process);
  }

  /** The corrected outcome: with `downlevel` off, a pass whose jobs all succeed resolves,
      whatever `verbose` is and whatever the (unused) bundle would be. */
  lemma WithoutDownlevelResolves(files: seq<string>, assets: map<string, Source>, opts: seq<Prop>,
                                 corejsVersion: JsValue, process: Original -> Result<WorkerResult, string>,
                                 bundled: Result<Bundle, string>)
    requires WorkerContract(process)
    requires !Truthy(Get(opts, "downlevel"))
    requires Settled(files, assets, opts, TaskOf(opts, corejsVersion), process).Success?
    ensures Outcome(Settled(files, assets, opts, TaskOf(opts, corejsVersion), process), bundled) == None
  {
    NoDownlevelNoBundle(files, assets, opts, TaskOf(opts, corejsVersion), process);
  }

  /** With `downlevel` off, a pass whose jobs all succeed has no polyfill to bundle. */
  lemma NoDownlevelNoBundle(files: seq<string>, assets: map<string, Source>, opts: seq<Prop>, task: TaskOptions,
                            process: Original -> Result<WorkerResult, string>)
    requires WorkerContract(process) && !Truthy(task.downlevel)
    requires Settled(files, assets, opts, task, process).Success?
    ensures AllPolyfills(Settled(files, assets, opts, task, process).value) == []
  {
    var ts := Settled(files, assets, opts, task, process).value;
    SettledJobs(files, assets, opts, task, process);
    forall i | 0 <= i < |ts|
      ensures ts[i].polyfills == []
    {
      NoDownlevelNoPolyfills(files, assets, opts, task, process, i);
    }
    NoUsesNoPolyfills(ts);
  }

  /** When a pass settles, each file's result is the job of the first file with its asset. */
  lemma SettledJobs(files: seq<string>, assets: map<string, Source>, opts: seq<Prop>, task: TaskOptions,
                    process: Original -> Result<WorkerResult, string>)
    requires Settled(files, assets, opts, task, process).Success?
    ensures PresentPrefix(files, assets) == |files|
    ensures |Settled(files, assets, opts, task, process).value| == |files|
    ensures forall i :: 0 <= i < |files| ==>
              JobAt(files, Srcs(files, assets), FirstWith(Srcs(files, assets), i), opts, task, process).Success? &&
              Settled(files, assets, opts, task, process).value[i] ==
                JobAt(files, Srcs(files, assets), FirstWith(Srcs(files, assets), i), opts, task, process).value
  {
    var srcs := Srcs(files, assets);
    var ps := seq(|files|, i requires 0 <= i < |files| => JobAt(files, srcs, FirstWith(srcs, i), opts, task, process));
    assert Settled(files, assets, opts, task, process) == JoinAll(ps);
    assert forall i :: 0 <= i < |files| ==> ps[i] == JobAt(files, srcs, FirstWith(srcs, i), opts, task, process);
  }

  lemma NoDownlevelNoPolyfills(files: seq<string>, assets: map<string, Source>, opts: seq<Prop>, task: TaskOptions,
                               process: Original -> Result<WorkerResult, string>, i: nat)
    requires WorkerContract(process) && !Truthy(task.downlevel)
    requires PresentPrefix(files, assets) == |files| && i < |files|
    requires JobAt(files, Srcs(files, assets), FirstWith(Srcs(files, assets), i), opts, task, process).Success?
    ensures JobAt(files, Srcs(files, assets), FirstWith(Srcs(files, assets), i), opts, task, process).value.polyfills == []
  {
    var srcs := Srcs(files, assets);
    var f := FirstWith(srcs, i);
    var o := OriginalOf(files[f], srcs[f], opts, task);
    assert o.options == task;
    assert process(o).Success?;
  }

  // ---------------------------------------------------------------------------
  // The plugin

  class OptimizePlugin {
    var options: seq<Prop>
    /** `this._serialized`: `None` while it is `undefined`. */
    var serialized: Option<string>
    var polyfillsCache: map<string, Result<Bundle, string>>
    /** The polyfill lists `generatePolyfillsChunk` has been called with, in call order. */
    var generated: seq<seq<string>>
    /** `generatePolyfillsChunk`: Rollup's bundle of a polyfill list, or its rejection. */
    const generatePolyfillsChunk: seq<string> -> Result<Bundle, string>
    const workerPool: WorkerPool

    /** Each cache key was built by exactly one call, with a list that has that key, and the
        entry is what that call gave; no entry is ever removed. */
    ghost predicate Valid()
      reads this
    {
      CacheBuiltOnce(generated, polyfillsCache, generatePolyfillsChunk)
    }

    constructor (options: JsValue, process: Original -> Result<WorkerResult, string>,
                 generatePolyfillsChunk: seq<string> -> Result<Bundle, string>)
      ensures Defaulted(this.options, OwnOptions(options), DefaultOptions)
      ensures serialized == None && polyfillsCache == map[] && generated == []
      ensures this.generatePolyfillsChunk == generatePolyfillsChunk
      ensures fresh(workerPool) && workerPool.process == process && workerPool.submitted == []
      ensures Valid()
    {
      DefaultOptionsUnique();
      var given := OwnOptions(options);
      var opts := WithDefaults(given, DefaultOptions);
      this.options := opts;
      serialized := None;
      polyfillsCache := map[];
      generated := [];
      this.generatePolyfillsChunk := generatePolyfillsChunk;
      workerPool := new WorkerPool(process);
    }

    /** `serializeOptions()`: `this._serialized || (this._serialized = JSON.stringify(this.options))`. */
    method SerializeOptions() returns (s: string)
      modifies this
      ensures old(serialized).Some? && old(serialized).value != "" ==> s == old(serialized).value
      ensures !(old(serialized).Some? && old(serialized).value != "") ==> s == SerializedOptions(options)
      ensures serialized == Some(s) && s != ""
      ensures options == old(options) && polyfillsCache == old(polyfillsCache) && generated == old(generated)
    {
      if serialized.Some? && serialized.value != "" {
        s := serialized.value;
      } else {
        s := SerializedOptions(options);
        serialized := Some(s);
      }
    }

    /** `generatePolyfillsChunkCached(polyfills, cwd, polyfillsFilename, timings)`. */
    method GeneratePolyfillsChunkCached(polyfills: seq<string>, polyfillsFilename: string) returns (r: Result<Source, string>)
      requires Valid()
      modifies this
      ensures Valid()
      ensures options == old(options) && serialized == old(serialized)
      ensures PolyfillsKey(polyfills) in old(polyfillsCache) ==>
                polyfillsCache == old(polyfillsCache) && generated == old(generated)
      ensures PolyfillsKey(polyfills) !in old(polyfillsCache) ==>
                generated == old(generated) + [polyfills] &&
                polyfillsCache == old(polyfillsCache)[PolyfillsKey(polyfills) := generatePolyfillsChunk(polyfills)]
      ensures PolyfillsKey(polyfills) in polyfillsCache
      ensures r == PolyfillsSource(polyfillsCache[PolyfillsKey(polyfills)], polyfillsFilename)
    {
      var key := PolyfillsKey(polyfills);
      if key !in polyfillsCache {
        CacheInsert(generated, polyfillsCache, generatePolyfillsChunk, polyfills);
        var output := generatePolyfillsChunk(polyfills);
        generated := generated + [polyfills];
        polyfillsCache := polyfillsCache[key := output];
      }
      r := PolyfillsSource(polyfillsCache[key], polyfillsFilename);
    }

    /** The `files.map(...)` of `optimize`: one job per asset object, the same pending result
        for every file that shares it; a missing asset throws before `Promise.all`. */
    method Dispatch(files: seq<string>, assets: map<string, Source>, task: TaskOptions)
      returns (r: Result<seq<Result<Transformed, string>>, string>)
      modifies workerPool
      ensures workerPool.submitted == old(workerPool.submitted) + Dispatched(files, assets, options, task)
      ensures r.Failure? <==> PresentPrefix(files, assets) < |files|
      ensures r.Failure? ==> r.error == AssetTypeError(options)
      ensures r.Success? ==> |r.value| == |files|
      ensures r.Success? ==> forall i :: 0 <= i < |files| ==>
                r.value[i] == JobAt(files, Srcs(files, assets), FirstWith(Srcs(files, assets), i), options, task, workerPool.process)
    {
      var opts := options;
      var process := workerPool.process;
      var processing: map<Source, Result<Transformed, string>> := map[];
      var transformed: seq<Result<Transformed, string>> := [];
      ghost var srcs: seq<Source> := [];
      ghost var jobs: seq<Original> := [];
      assert files[..0] == [];
      for i := 0 to |files|
        invariant DispatchState(files, assets, i, srcs, jobs, processing, transformed, opts, task, process)
        invariant workerPool.submitted == old(workerPool.submitted) + jobs
      {
        if files[i] !in assets {
          assert PresentPrefix(files, assets) == i;
          assert files[..i][..i] == files[..i];
          r := Failure(AssetTypeError(opts));
          return;
        }
        var asset := assets[files[i]];
        if asset in processing {
          DispatchReuse(files, assets, i, srcs, jobs, processing, transformed, opts, task, process);
          transformed := transformed + [processing[asset]];
        } else {
          DispatchEnqueue(files, assets, i, srcs, jobs, processing, transformed, opts, task, process);
          var original := OriginalOf(files[i], asset, opts, task);
          SnocAssoc(old(workerPool.submitted), jobs, original);
          var result := workerPool.Enqueue(original);
          jobs := jobs + [original];
          var pending := Settle(original, result);
          processing := processing[asset := pending];
          transformed := transformed + [pending];
        }
        srcs := srcs + [asset];
      }
      assert files[..|files|] == files;
      r := Success(transformed);
    }

    /** One `optimize(compiler, compilation, chunks)` pass. The output summary is taken in its
        corrected form (see `OutcomeAsWritten`). */
    method Optimize(compilation: Compilation, chunks: seq<Option<seq<string>>>, additional: Option<seq<string>>,
                    corejsVersion: JsValue) returns (error: Option<string>)
      requires Valid()
      modifies this, compilation, workerPool
      ensures Valid()
      ensures options == old(options) && serialized == old(serialized)
      ensures workerPool.submitted == old(workerPool.submitted) +
                Dispatched(Files(chunks, additional), old(compilation.assets), options, TaskOf(options, corejsVersion))
      ensures Settled(Files(chunks, additional), old(compilation.assets), options, TaskOf(options, corejsVersion), workerPool.process).Failure? ==>
                error == Some(Settled(Files(chunks, additional), old(compilation.assets), options, TaskOf(options, corejsVersion), workerPool.process).error) &&
                compilation.assets == old(compilation.assets) &&
                polyfillsCache == old(polyfillsCache) && generated == old(generated)
      ensures Settled(Files(chunks, additional), old(compilation.assets), options, TaskOf(options, corejsVersion), workerPool.process).Success? ==>
                PassEffect(old(compilation.assets), old(polyfillsCache), old(generated), compilation.assets, error,
                  Settled(Files(chunks, additional), old(compilation.assets), options, TaskOf(options, corejsVersion), workerPool.process).value)
    {
      var files := Files(chunks, additional);
      var task := TaskOf(options, corejsVersion);
      ghost var assets0 := compilation.assets;
      ghost var opts := options;
      ghost var process := workerPool.process;
      ghost var settled := Settled(files, assets0, opts, task, process);
      var dispatched := Dispatch(files, compilation.assets, task);
      if dispatched.Failure? {
        assert settled == Failure(AssetTypeError(opts));
        return Some(dispatched.error);
      }
      ghost var srcs := Srcs(files, assets0);
      assert dispatched.value == seq(|files|, i requires 0 <= i < |files| =>
                                    JobAt(files, srcs, FirstWith(srcs, i), opts, task, process));
      var joined := JoinAll(dispatched.value);
      assert joined == settled;
      if joined.Failure? {
        return Some(joined.error);
      }
      error := Complete(compilation, joined.value);
    }

    /** What `optimize` does once `Promise.all` resolved with `ts`: write every result back,
        collect the polyfills, add (or delete) the polyfills asset. */
    method Complete(compilation: Compilation, ts: seq<Transformed>) returns (error: Option<string>)
      requires Valid()
      modifies this, compilation
      ensures Valid()
      ensures options == old(options) && serialized == old(serialized)
      ensures PassEffect(old(compilation.assets), old(polyfillsCache), old(generated), compilation.assets, error, ts)
    {
      var polyfills, reasons := WriteAndAggregate(compilation, ts);
      var polyfillsFilename := PolyfillsFilename(options);
      if |polyfills| > 0 {
        var asset := GeneratePolyfillsChunkCached(polyfills, polyfillsFilename);
        if asset.Failure? {
          return Some(asset.error);
        }
        compilation.assets := compilation.assets[polyfillsFilename := asset.value];
      } else {
        compilation.assets := compilation.assets - {polyfillsFilename};
      }
      error := None;
    }

    /** The effect of a pass whose jobs all resolved with `ts`: the assets become
        `AfterPass(...)` with the bundle the cache holds for the polyfill list, built now unless
        the key was already cached; the outcome is `Outcome(...)`. */
    ghost predicate PassEffect(assets0: map<string, Source>, cache0: map<string, Result<Bundle, string>>,
                               generated0: seq<seq<string>>, assets: map<string, Source>, error: Option<string>,
                               ts: seq<Transformed>)
      reads this
    {
      var ps := AllPolyfills(ts);
      var fname := PolyfillsFilename(options);
      if ps == [] then
        assets == AfterPass(assets0, ts, fname, Failure("")) && error == None &&
        polyfillsCache == cache0 && generated == generated0
      else
        var key := PolyfillsKey(ps);
        (key in cache0 ==> polyfillsCache == cache0 && generated == generated0) &&
        (key !in cache0 ==> generated == generated0 + [ps] && polyfillsCache == cache0[key := generatePolyfillsChunk(ps)]) &&
        key in polyfillsCache &&
        assets == AfterPass(assets0, ts, fname, polyfillsCache[key]) &&
        error == Outcome(Success(ts), polyfillsCache[key])
    }

    /** A pass whose jobs resolved resolves itself exactly when it found no polyfill or the
        cache entry for its polyfill list is a bundle; otherwise it rejects with that entry's
        error. The entry is the one stored before the pass, or else the bundle built now. */
    lemma PassOutcome(assets0: map<string, Source>, cache0: map<string, Result<Bundle, string>>,
                      generated0: seq<seq<string>>, assets: map<string, Source>, error: Option<string>,
                      ts: seq<Transformed>)
      requires PassEffect(assets0, cache0, generated0, assets, error, ts)
      ensures AllPolyfills(ts) == [] ==> error == None
      ensures AllPolyfills(ts) != [] ==>
                var key := PolyfillsKey(AllPolyfills(ts));
                key in polyfillsCache &&
                polyfillsCache[key] == (if key in cache0 then cache0[key] else generatePolyfillsChunk(AllPolyfills(ts))) &&
                (error == None <==> polyfillsCache[key].Success?) &&
                (error != None ==> error == Some(polyfillsCache[key].error))
    {
    }

    /** The cache is transparent: when no list it was built from is empty or has a specifier
        with a newline, the entry stored under a list's key is that list's own bundle, so a
        pass ends as it would with a fresh build. */
    lemma CacheTransparent(ps: seq<string>)
      requires Valid()
      requires forall i :: 0 <= i < |generated| ==>
                 generated[i] != [] && forall j :: 0 <= j < |generated[i]| ==> '\n' !in generated[i][j]
      requires ps != [] && forall j :: 0 <= j < |ps| ==> '\n' !in ps[j]
      requires PolyfillsKey(ps) in polyfillsCache
      ensures polyfillsCache[PolyfillsKey(ps)] == generatePolyfillsChunk(ps)
    {
      var i :| 0 <= i < |generated| && PolyfillsKey(generated[i]) == PolyfillsKey(ps);
      PolyfillsKeyInjective(generated[i], ps);
    }
  }

  /** The `transformed.forEach(...)` of `optimize`: writes every result back and collects the
      polyfills and their reasons. */
  method WriteAndAggregate(compilation: Compilation, ts: seq<Transformed>)
    returns (polyfills: seq<string>, reasons: map<string, seq<Option<string>>>)
    modifies compilation
    ensures compilation.assets == WriteBack(old(compilation.assets), ts)
    ensures polyfills == AllPolyfills(ts)
    ensures reasons == Reasons(Uses(ts))
  {
    ghost var assets0 := compilation.assets;
    polyfills := [];
    reasons := map[];
    for i := 0 to |ts|
      invariant compilation.assets == WriteBack(assets0, ts[..i])
      invariant polyfills == OrderedSet.AddAll([], PolyfillsOf(Uses(ts[..i])))
      invariant reasons == Reasons(Uses(ts[..i]))
    {
      var t := ts[i];
      ForEachStep(assets0, ts, i);
      polyfills, reasons := CollectPolyfills(polyfills, reasons, Uses(ts[..i]), t);
      ghost var written := compilation.assets;
      compilation.assets := compilation.assets[t.file := t.modern];
      if t.legacy.Some? {
        compilation.assets := compilation.assets[LegacyKey(t.legacyFile) := t.legacy.value];
      } else {
        compilation.assets := compilation.assets - {LegacyKey(t.legacyFile)};
      }
      assert compilation.assets == Write(written, t);
    }
    assert ts[..|ts|] == ts;
  }

  lemma ForEachStep(assets: map<string, Source>, ts: seq<Transformed>, i: nat)
    requires i < |ts|
    ensures Uses(ts[..i + 1]) == Uses(ts[..i]) + UsesOf(ts[i])
    ensures WriteBack(assets, ts[..i + 1]) == Write(WriteBack(assets, ts[..i]), ts[i])
  {
    assert ts[..i + 1][..i] == ts[..i];
  }

  /** The `for (const p of polyfills)` loop over one result: each polyfill is added to
      `allPolyfills`, and the result's `legacyFile` is appended to its reasons. */
  method CollectPolyfills(all0: seq<string>, reasons0: map<string, seq<Option<string>>>, ghost before: seq<Use>, t: Transformed)
    returns (all: seq<string>, reasons: map<string, seq<Option<string>>>)
    requires all0 == OrderedSet.AddAll([], PolyfillsOf(before)) && reasons0 == Reasons(before)
    ensures all == OrderedSet.AddAll([], PolyfillsOf(before + UsesOf(t)))
    ensures reasons == Reasons(before + UsesOf(t))
  {
    all, reasons := all0, reasons0;
    assert before + UsesOf(t)[..0] == before;
    for j := 0 to |t.polyfills|
      invariant all == OrderedSet.AddAll([], PolyfillsOf(before + UsesOf(t)[..j]))
      invariant reasons == Reasons(before + UsesOf(t)[..j])
    {
      var p := t.polyfills[j];
      UseStep(before, t, j);
      OrderedSet.AddAllSnoc([], PolyfillsOf(before + UsesOf(t)[..j]), p);
      all := OrderedSet.Add(all, p);
      var current := if p in reasons then reasons[p] else [];
      reasons := reasons[p := current + [t.legacyFile]];
    }
    assert UsesOf(t)[..|t.polyfills|] == UsesOf(t);
  }

  lemma UseStep(before: seq<Use>, t: Transformed, j: nat)
    requires j < |t.polyfills|
    ensures before + UsesOf(t)[..j + 1] == (before + UsesOf(t)[..j]) + [Use(t.polyfills[j], t.legacyFile)]
    ensures PolyfillsOf(before + UsesOf(t)[..j + 1]) == PolyfillsOf(before + UsesOf(t)[..j]) + [t.polyfills[j]]
    ensures Reasons(before + UsesOf(t)[..j + 1]) ==
              var r := Reasons(before + UsesOf(t)[..j]);
              var p := t.polyfills[j];
              r[p := (if p in r then r[p] else []) + [t.legacyFile]]
  {
    var xs := before + UsesOf(t)[..j];
    var u := Use(t.polyfills[j], t.legacyFile);
    assert UsesOf(t)[..j + 1] == UsesOf(t)[..j] + [u];
    assert before + UsesOf(t)[..j + 1] == xs + [u];
    assert (xs + [u])[..|xs|] == xs;
  }

  /** The state of the `files.map(...)` of `optimize` after its first `i` files: `processing`
      holds the pending result of each asset met so far, that of the job enqueued for its first
      file, and `transformed` the pending result of each file so far. */
  ghost predicate DispatchState(files: seq<string>, assets: map<string, Source>, i: nat, srcs: seq<Source>,
                                jobs: seq<Original>, processing: map<Source, Result<Transformed, string>>,
                                transformed: seq<Result<Transformed, string>>, opts: seq<Prop>, task: TaskOptions,
                                process: Original -> Result<WorkerResult, string>)
  {
    && i <= |files|
    && (forall j :: 0 <= j < i ==> files[j] in assets)
    && srcs == Srcs(files[..i], assets)
    && jobs == Jobs(files[..i], srcs, opts, task)
    && (forall a :: a in processing <==> a in srcs)
    && (forall a :: a in processing ==>
          processing[a] == JobAt(files, srcs, OrderedSet.FirstIndex(srcs, a), opts, task, process))
    && |transformed| == i
    && (forall j :: 0 <= j < i ==> transformed[j] == JobAt(files, srcs, FirstWith(srcs, j), opts, task, process))
  }

  /** One file of the `files.map(...)` whose asset an earlier file already had: it reuses that
      pending result and enqueues nothing. */
  lemma DispatchReuse(files: seq<string>, assets: map<string, Source>, i: nat, srcs: seq<Source>,
                      jobs: seq<Original>, processing: map<Source, Result<Transformed, string>>,
                      transformed: seq<Result<Transformed, string>>, opts: seq<Prop>, task: TaskOptions,
                      process: Original -> Result<WorkerResult, string>)
    requires DispatchState(files, assets, i, srcs, jobs, processing, transformed, opts, task, process)
    requires i < |files| && files[i] in assets && assets[files[i]] in processing
    ensures DispatchState(files, assets, i + 1, srcs + [assets[files[i]]], jobs, processing,
                          transformed + [processing[assets[files[i]]]], opts, task, process)
  {
    var a := assets[files[i]];
    DispatchStep(files, assets, srcs, i, opts, task);
    var s1 := srcs + [a];
    var t1 := transformed + [processing[a]];
    forall x | x in processing
      ensures processing[x] == JobAt(files, s1, OrderedSet.FirstIndex(s1, x), opts, task, process)
    {
      OrderedSet.FirstIndexPrefix(srcs, [a], x);
      JobAtSnoc(files, srcs, a, OrderedSet.FirstIndex(srcs, x), opts, task, process);
    }
    forall j | 0 <= j < i + 1
      ensures t1[j] == JobAt(files, s1, FirstWith(s1, j), opts, task, process)
    {
      if j < i {
        FirstWithSnoc(srcs, a, j);
        JobAtSnoc(files, srcs, a, FirstWith(srcs, j), opts, task, process);
      } else {
        FirstWithLast(srcs, a);
        JobAtSnoc(files, srcs, a, OrderedSet.FirstIndex(srcs, a), opts, task, process);
      }
    }
  }

  /** One file of the `files.map(...)` with an asset not met before: it enqueues one job and
      records the job's pending result for the asset and for the file. */
  lemma DispatchEnqueue(files: seq<string>, assets: map<string, Source>, i: nat, srcs: seq<Source>,
                        jobs: seq<Original>, processing: map<Source, Result<Transformed, string>>,
                        transformed: seq<Result<Transformed, string>>, opts: seq<Prop>, task: TaskOptions,
                        process: Original -> Result<WorkerResult, string>)
    requires DispatchState(files, assets, i, srcs, jobs, processing, transformed, opts, task, process)
    requires i < |files| && files[i] in assets && assets[files[i]] !in processing
    ensures var o := OriginalOf(files[i], assets[files[i]], opts, task);
            DispatchState(files, assets, i + 1, srcs + [assets[files[i]]], jobs + [o],
                          processing[assets[files[i]] := Settle(o, process(o))],
                          transformed + [Settle(o, process(o))], opts, task, process)
  {
    var a := assets[files[i]];
    var o := OriginalOf(files[i], a, opts, task);
    DispatchStep(files, assets, srcs, i, opts, task);
    FirstWithLast(srcs, a);
    var s1 := srcs + [a];
    var p1 := processing[a := Settle(o, process(o))];
    var t1 := transformed + [Settle(o, process(o))];
    assert s1[i] == a;
    assert JobAt(files, s1, i, opts, task, process) == Settle(o, process(o));
    forall x | x in p1
      ensures p1[x] == JobAt(files, s1, OrderedSet.FirstIndex(s1, x), opts, task, process)
    {
      if x != a {
        OrderedSet.FirstIndexPrefix(srcs, [a], x);
        JobAtSnoc(files, srcs, a, OrderedSet.FirstIndex(srcs, x), opts, task, process);
      }
    }
    forall j | 0 <= j < i + 1
      ensures t1[j] == JobAt(files, s1, FirstWith(s1, j), opts, task, process)
    {
      if j < i {
        FirstWithSnoc(srcs, a, j);
        JobAtSnoc(files, srcs, a, FirstWith(srcs, j), opts, task, process);
      }
    }
  }

  /** What one more file adds to the dispatch state: the jobs grow only for an asset not yet
      met, and the pending results of the earlier files are unchanged. */
  lemma DispatchStep(files: seq<string>, assets: map<string, Source>, srcs: seq<Source>, i: nat,
                     opts: seq<Prop>, task: TaskOptions)
    requires i < |files| && files[i] in assets
    requires forall j :: 0 <= j < i ==> files[j] in assets
    requires srcs == Srcs(files[..i], assets)
    ensures Srcs(files[..i + 1], assets) == srcs + [assets[files[i]]]
    ensures assets[files[i]] in srcs ==>
              Jobs(files[..i + 1], srcs + [assets[files[i]]], opts, task) == Jobs(files[..i], srcs, opts, task)
    ensures assets[files[i]] !in srcs ==>
              Jobs(files[..i + 1], srcs + [assets[files[i]]], opts, task) ==
              Jobs(files[..i], srcs, opts, task) + [OriginalOf(files[i], assets[files[i]], opts, task)]
  {
    var a := assets[files[i]];
    assert files[..i + 1][..i] == files[..i];
    assert (srcs + [a])[..i] == srcs;
    assert Srcs(files[..i + 1], assets) == srcs + [a];
  }

  lemma JobAtSnoc(files: seq<string>, srcs: seq<Source>, a: Source, f: nat, opts: seq<Prop>, task: TaskOptions,
                  process: Original -> Result<WorkerResult, string>)
    requires f < |srcs| < |files|
    ensures JobAt(files, srcs + [a], f, opts, task, process) == JobAt(files, srcs, f, opts, task, process)
  {
    assert (srcs + [a])[f] == srcs[f];
  }

  /** Appending an asset does not change the first file of an earlier file's asset. */
  lemma FirstWithSnoc(srcs: seq<Source>, a: Source, j: nat)
    requires j < |srcs|
    ensures FirstWith(srcs + [a], j) == FirstWith(srcs, j)
  {
    assert (srcs + [a])[..j + 1] == srcs[..j + 1];
  }

  /** The first file with the asset of a new last file: an earlier one when the asset was
      already met, the new file itself otherwise. */
  lemma FirstWithLast(srcs: seq<Source>, a: Source)
    ensures FirstWith(srcs + [a], |srcs|) == if a in srcs then OrderedSet.FirstIndex(srcs, a) else |srcs|
    ensures a !in srcs ==> OrderedSet.FirstIndex(srcs + [a], a) == |srcs|
  {
    var s1 := srcs + [a];
    assert s1[..|srcs| + 1] == s1;
    if a in srcs {
      OrderedSet.FirstIndexPrefix(srcs, [a], a);
    }
  }
}
