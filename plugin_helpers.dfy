/**
 * The pure helpers of src/index.js: legacy file names, the webpack sources built from a
 * worker's result, the polyfill "reasons" text, the virtual entry module of the polyfills
 * bundle, and the core-js module-id rewrite.
 */
module PluginHelpers {

  import opened Wrappers
  import opened Js

  predicate EndsWith(s: string, suffix: string) {
    |suffix| <= |s| && s[|s| - |suffix|..] == suffix
  }

  predicate StartsWith(s: string, prefix: string) {
    |prefix| <= |s| && s[..|prefix|] == prefix
  }

  // ---------------------------------------------------------------------------
  // toLegacyFilename

  /** `file.replace(/(\.m?js)$/g, '.legacy$1')`: the only match, if any, is the `.mjs` or
      `.js` at the end of the name, which gets `.legacy` in front of it. */
  function InsertLegacy(file: string): string {
    if EndsWith(file, ".mjs") then file[..|file| - 4] + ".legacy" + ".mjs"
    else if EndsWith(file, ".js") then file[..|file| - 3] + ".legacy" + ".js"
    else file
  }

  /** `toLegacyFilename(file)`. */
  function ToLegacyFilename(file: string): string {
    var out := InsertLegacy(file);
    if out == file then out + ".legacy.js" else out
  }

  /** A `.js` or `.mjs` name gets `.legacy` before its extension; any other name gets
      `.legacy.js` appended. The result never equals the input. */
  lemma ToLegacyFilenameSpec(file: string)
    ensures EndsWith(file, ".mjs") ==> ToLegacyFilename(file) == file[..|file| - 4] + ".legacy.mjs"
    ensures EndsWith(file, ".js") ==> ToLegacyFilename(file) == file[..|file| - 3] + ".legacy.js"
    ensures !EndsWith(file, ".js") && !EndsWith(file, ".mjs") ==> ToLegacyFilename(file) == file + ".legacy.js"
    ensures ToLegacyFilename(file) != file
  {
    ExtensionsExclusive(file);
    if EndsWith(file, ".mjs") {
      LegacyMjs(file);
    } else if EndsWith(file, ".js") {
      LegacyJs(file);
    } else {
      assert |file + ".legacy.js"| > |file|;
    }
  }

  lemma LegacyMjs(file: string)
    requires EndsWith(file, ".mjs")
    ensures ToLegacyFilename(file) == file[..|file| - 4] + ".legacy.mjs"
  {
    var out := file[..|file| - 4] + ".legacy" + ".mjs";
    assert |out| != |file|;
    assert InsertLegacy(file) == out;
    assert ".legacy" + ".mjs" == ".legacy.mjs";
  }

  lemma LegacyJs(file: string)
    requires EndsWith(file, ".js") && !EndsWith(file, ".mjs")
    ensures ToLegacyFilename(file) == file[..|file| - 3] + ".legacy.js"
  {
    var out := file[..|file| - 3] + ".legacy" + ".js";
    assert |out| != |file|;
    assert InsertLegacy(file) == out;
    assert ".legacy" + ".js" == ".legacy.js";
  }

  /** `.js` and `.mjs` never both end a name. */
  lemma ExtensionsExclusive(file: string)
    ensures !(EndsWith(file, ".js") && EndsWith(file, ".mjs"))
  {
    if EndsWith(file, ".mjs") {
      assert file[|file| - 3] == 'm';
    }
  }

  /** The legacy name keeps everything before the extension, and ends in `.legacy.mjs`
      exactly when the name ends in `.mjs` and in `.legacy.js` otherwise. */
  lemma ToLegacyFilenameKeepsStem(file: string)
    ensures var stem := if EndsWith(file, ".mjs") then file[..|file| - 4]
                        else if EndsWith(file, ".js") then file[..|file| - 3] else file;
            StartsWith(ToLegacyFilename(file), stem)
    ensures EndsWith(file, ".mjs") ==> EndsWith(ToLegacyFilename(file), ".legacy.mjs")
    ensures !EndsWith(file, ".mjs") ==> EndsWith(ToLegacyFilename(file), ".legacy.js")
  {
    ToLegacyFilenameSpec(file);
    ExtensionsExclusive(file);
    var out := ToLegacyFilename(file);
    if EndsWith(file, ".mjs") {
      assert out[|out| - 11..] == ".legacy.mjs";
    } else {
      assert out[|out| - 10..] == ".legacy.js";
    }
  }

  /** Names with a `.js` or `.mjs` extension never share a legacy name. */
  lemma ToLegacyFilenameInjective(a: string, b: string)
    requires EndsWith(a, ".js") || EndsWith(a, ".mjs")
    requires EndsWith(b, ".js") || EndsWith(b, ".mjs")
    requires ToLegacyFilename(a) == ToLegacyFilename(b)
    ensures a == b
  {
    ToLegacyFilenameSpec(a);
    ToLegacyFilenameSpec(b);
    ToLegacyFilenameKeepsStem(a);
    ToLegacyFilenameKeepsStem(b);
    ExtensionsExclusive(a);
    ExtensionsExclusive(b);
    var out := ToLegacyFilename(a);
    LegacySuffixesExclusive(out);
    if EndsWith(a, ".mjs") {
      assert a == a[..|a| - 4] + ".mjs";
      assert b == b[..|b| - 4] + ".mjs";
      assert out[..|out| - 11] == a[..|a| - 4];
      assert out[..|out| - 11] == b[..|b| - 4];
    } else {
      assert a == a[..|a| - 3] + ".js";
      assert b == b[..|b| - 3] + ".js";
      assert out[..|out| - 10] == a[..|a| - 3];
      assert out[..|out| - 10] == b[..|b| - 3];
    }
  }

  lemma LegacySuffixesExclusive(out: string)
    ensures !(EndsWith(out, ".legacy.js") && EndsWith(out, ".legacy.mjs"))
  {
    if EndsWith(out, ".legacy.mjs") {
      assert out[|out| - 4] == '.';
    }
  }

  /** `main.js` and `main` both map to `main.legacy.js`: names without an extension can
      collide with names that have one. */
  lemma ToLegacyFilenameCollision(stem: string)
    requires !EndsWith(stem, ".js") && !EndsWith(stem, ".mjs")
    ensures ToLegacyFilename(stem) == ToLegacyFilename(stem + ".js") == stem + ".legacy.js"
  {
    ToLegacyFilenameSpec(stem);
    var f := stem + ".js";
    assert f[|f| - 3..] == ".js";
    ToLegacyFilenameSpec(f);
    assert f[..|f| - 3] == stem;
  }

  // ---------------------------------------------------------------------------
  // buildResultSources / buildFile

  /** The options passed to every worker job: `{ corejsVersion, minify, downlevel, timings }`. */
  datatype TaskOptions = TaskOptions(corejsVersion: JsValue, minify: JsValue, downlevel: JsValue, timings: JsValue)

  /** A worker job: `{ file, source, map, options }`. */
  datatype Original = Original(file: string, source: string, sourceMap: JsValue, options: TaskOptions)

  /** `sanitizeResult(...)` of one Babel result: `{ source: code, map }`. */
  datatype Output = Output(source: string, sourceMap: JsValue)

  /** What a worker job resolves with: the modern output, the legacy output when one was
      produced, and the polyfill specifiers it imports. */
  datatype WorkerResult = WorkerResult(modern: Output, legacy: Option<Output>, polyfills: seq<string>)

  /** A webpack source object. `Asset` is a source that webpack produced before this plugin
      runs; `id` stands for its object identity. */
  datatype Source =
    | Asset(id: nat, code: string, sourceMap: JsValue, hasSourceAndMap: bool)
    | RawSource(code: string)
    | SourceMapSource(code: string, name: string, sourceMap: JsValue, originalSource: Option<string>, originalMap: JsValue)

  /** `{ file, legacyFile, modern, legacy, polyfills }`. */
  datatype Transformed = Transformed(file: string, legacyFile: Option<string>, modern: Source, legacy: Option<Source>, polyfills: seq<string>)

  /** `buildFile(original, result, name)`. */
  function BuildFile(original: Original, result: Output, name: Option<string>): (s: Source)
    ensures s.code == result.source
    ensures s.SourceMapSource? <==> Truthy(result.sourceMap)
    ensures s.SourceMapSource? ==>
              s.sourceMap == result.sourceMap && s.originalSource == Some(original.source) && s.originalMap == original.sourceMap &&
              s.name == (if name.Some? && name.value != "" then name.value else original.file)
  {
    if Truthy(result.sourceMap) then
      SourceMapSource(result.source, if name.Some? && name.value != "" then name.value else original.file,
                      result.sourceMap, Some(original.source), original.sourceMap)
    else RawSource(result.source)
  }

  /** `buildResultSources(original, result)`. */
  function BuildResultSources(original: Original, result: WorkerResult): (t: Transformed)
    ensures t.file == original.file && t.polyfills == result.polyfills
    ensures t.legacy.Some? <==> result.legacy.Some?
    ensures t.legacyFile.Some? <==> result.legacy.Some?
    ensures t.legacyFile.Some? ==> t.legacyFile.value == ToLegacyFilename(original.file) && t.legacyFile.value != t.file
    ensures t.modern.code == result.modern.source
    ensures t.legacy.Some? ==> t.legacy.value.code == result.legacy.value.source
    ensures t.legacy.Some? && t.legacy.value.SourceMapSource? ==> t.legacy.value.name == t.legacyFile.value
    ensures t.modern.SourceMapSource? ==> t.modern.name == original.file
  {
    var modern := BuildFile(original, result.modern, None);
    if result.legacy.Some? then
      var legacyFile := ToLegacyFilename(original.file);
      ToLegacyFilenameSpec(original.file);
      assert legacyFile != "";
      Transformed(original.file, Some(legacyFile), modern, Some(BuildFile(original, result.legacy.value, Some(legacyFile))), result.polyfills)
    else
      Transformed(original.file, None, modern, None, result.polyfills)
  }

  // ---------------------------------------------------------------------------
  // serializeReasons

  /** A reason in a template literal or after `+`: `undefined` reads "undefined". */
  function Text(r: Option<string>): string {
    if r.Some? then r.value else "undefined"
  }

  /** An element of `Array.prototype.join`: `undefined` reads as empty. */
  function JoinText(r: Option<string>): string {
    if r.Some? then r.value else ""
  }

  /** `reasons.join(', ')`. */
  function JoinReasons(rs: seq<Option<string>>): string {
    if rs == [] then ""
    else if |rs| == 1 then JoinText(rs[0])
    else JoinText(rs[0]) + ", " + JoinReasons(rs[1..])
  }

  /** `serializeReasons(reasons)`. */
  function SerializeReasons(rs: seq<Option<string>>): string {
    if |rs| == 1 then Text(rs[0])
    else if |rs| > 3 then Text(rs[0]) + ", " + Text(rs[1]) + " and " + IntToString(|rs| - 2) + " others"
    else if rs == [] then JoinReasons([]) + " and " + "undefined"
    else JoinReasons(rs[..|rs| - 1]) + " and " + Text(rs[|rs| - 1])
  }

  /** One reason is itself; two or three are joined by `", "` with `" and "` before the last;
      more than three name the first two and count the others. An `undefined` reason reads
      "undefined" in the template literal and after `+`, and empty inside `join`. */
  lemma SerializeReasonsSpec(rs: seq<Option<string>>)
    ensures |rs| == 0 ==> SerializeReasons(rs) == " and undefined"
    ensures |rs| == 1 ==> SerializeReasons(rs) == Text(rs[0])
    ensures |rs| == 2 ==> SerializeReasons(rs) == JoinText(rs[0]) + " and " + Text(rs[1])
    ensures |rs| == 3 ==> SerializeReasons(rs) == JoinText(rs[0]) + ", " + JoinText(rs[1]) + " and " + Text(rs[2])
    ensures |rs| > 3 ==>
              SerializeReasons(rs) == Text(rs[0]) + ", " + Text(rs[1]) + " and " + IntToString(|rs| - 2) + " others"
  {
    if |rs| == 2 {
      assert rs[..1] == [rs[0]];
    } else if |rs| == 3 {
      assert rs[..2] == [rs[0], rs[1]];
      assert [rs[0], rs[1]][1..] == [rs[1]];
      assert JoinReasons(rs[..2]) == JoinText(rs[0]) + ", " + JoinText(rs[1]);
    }
  }

  // ---------------------------------------------------------------------------
  // The virtual entry module of the polyfills bundle

  /** One line of the entry module: `\nimport "p";`. */
  function ImportLine(p: string): string {
    "\nimport \"" + p + "\";"
  }

  /** `polyfills.reduce((str, p) => `${str}\nimport "${p}";`, '')`. */
  function EntryContent(polyfills: seq<string>): string
    decreases |polyfills|
  {
    if polyfills == [] then ""
    else EntryContent(polyfills[..|polyfills| - 1]) + ImportLine(polyfills[|polyfills| - 1])
  }

  lemma {:induction false} EntryContentCons(p: string, ps: seq<string>)
    ensures EntryContent([p] + ps) == ImportLine(p) + EntryContent(ps)
    decreases |ps|
  {
    if ps == [] {
      assert [p] + ps == [p];
      assert [p][..0] == [];
    } else {
      var front := ps[..|ps| - 1];
      var last := ps[|ps| - 1];
      EntryContentCons(p, front);
      assert ([p] + ps)[..|[p] + ps| - 1] == [p] + front;
      assert ([p] + ps)[|[p] + ps| - 1] == last;
      assert EntryContent([p] + ps) == EntryContent([p] + front) + ImportLine(last);
      assert EntryContent(ps) == EntryContent(front) + ImportLine(last);
    }
  }

  function IndexOfQuote(s: string): (i: int)
    ensures -1 <= i < |s|
    ensures i >= 0 ==> s[i] == '"' && forall j :: 0 <= j < i ==> s[j] != '"'
    ensures i < 0 ==> forall j :: 0 <= j < |s| ==> s[j] != '"'
  {
    if s == [] then -1
    else if s[0] == '"' then 0
    else var k := IndexOfQuote(s[1..]); if k < 0 then -1 else k + 1
  }

  /** Reads the specifiers back from an entry module made of import lines. */
  function ParseEntry(s: string): Option<seq<string>>
    decreases |s|
  {
    if s == [] then Some([])
    else if !StartsWith(s, "\nimport \"") then None
    else
      var rest := s[9..];
      var k := IndexOfQuote(rest);
      if k < 0 || k + 1 >= |rest| || rest[k + 1] != ';' then None
      else match ParseEntry(rest[k + 2..])
        case None => None
        case Some(ps) => Some([rest[..k]] + ps)
  }

  /** The entry module imports exactly the polyfills, in order: reading it back gives them
      again, provided no specifier contains a double quote. */
  lemma {:induction false} EntryContentRoundTrip(ps: seq<string>)
    requires forall i :: 0 <= i < |ps| ==> '"' !in ps[i]
    ensures ParseEntry(EntryContent(ps)) == Some(ps)
    decreases |ps|
  {
    if ps != [] {
      EntryContentCons(ps[0], ps[1..]);
      assert [ps[0]] + ps[1..] == ps;
      ParseEntryLine(ps[0], EntryContent(ps[1..]));
      EntryContentRoundTrip(ps[1..]);
    }
  }

  /** Reading one import line, then the rest. */
  lemma ParseEntryLine(p: string, rest0: string)
    requires '"' !in p
    ensures ParseEntry(ImportLine(p) + rest0) ==
              match ParseEntry(rest0)
              case None => None
              case Some(ps) => Some([p] + ps)
  {
    var s := ImportLine(p) + rest0;
    assert s == "\nimport \"" + (p + "\";" + rest0);
    assert s[..9] == "\nimport \"";
    var rest := s[9..];
    assert rest == p + "\";" + rest0;
    QuoteAfter(p, ";" + rest0);
    assert rest == p + ("\"" + (";" + rest0));
    assert rest[..|p|] == p;
    assert rest[|p| + 1] == ';';
    assert rest[|p| + 2..] == rest0;
  }

  lemma QuoteAfter(p: string, tail: string)
    requires '"' !in p
    ensures IndexOfQuote(p + ("\"" + tail)) == |p|
  {
    var s := p + ("\"" + tail);
    assert s[|p|] == '"';
    assert forall j :: 0 <= j < |p| ==> s[j] == p[j];
  }

  // ---------------------------------------------------------------------------
  // The core-js `resolveId` hook

  /** Line terminators, which `.` in a regular expression does not match. */
  predicate IsLineTerminator(c: char) {
    c == '\n' || c == '\r' || c == '\U{2028}' || c == '\U{2029}'
  }

  /** Whether `/(?:^|\/)core-js\/(.+)$/` can match with `core-js/` at position `p`: at the
      start or after a slash, followed by a non-empty rest without line terminators. */
  predicate CoreJsAt(id: string, p: nat) {
    p + 8 < |id| && id[p..p + 8] == "core-js/" && (p == 0 || id[p - 1] == '/') &&
    forall j :: p + 8 <= j < |id| ==> !IsLineTerminator(id[j])
  }

  /** The capture `m[1]` of the leftmost match, searching from position `p`. */
  function CoreJsMatchFrom(id: string, p: nat): (m: Option<string>)
    ensures m.Some? ==> exists q :: p <= q && CoreJsAt(id, q) && m.value == id[q + 8..] &&
                                    forall q' :: p <= q' < q ==> !CoreJsAt(id, q')
    ensures m.None? ==> forall q :: p <= q ==> !CoreJsAt(id, q)
    decreases |id| - p
  {
    if p + 8 >= |id| then None
    else if CoreJsAt(id, p) then Some(id[p + 8..])
    else CoreJsMatchFrom(id, p + 1)
  }

  /** `id.match(isCoreJsPath)`, as its capture group. */
  function CoreJsMatch(id: string): Option<string> {
    CoreJsMatchFrom(id, 0)
  }

  /** `resolveId(id)` of the `core-js` plugin: a core-js module id without a `.js` extension
      resolves to that file in the installed core-js directory `corejsDir`; anything else is
      left to other plugins (`None` for `null`). */
  function ResolveCoreJsId(corejsDir: string, id: string): Option<string> {
    var m := CoreJsMatch(id);
    if m.Some? && !EndsWith(id, ".js") then Some(corejsDir + m.value + ".js") else None
  }

  /** A resolved path is the core-js directory, a non-empty tail of the id that follows a
      `core-js/` segment, and `.js`; ids ending in `.js` or without such a segment are not
      resolved. */
  lemma ResolveCoreJsIdSpec(corejsDir: string, id: string)
    ensures ResolveCoreJsId(corejsDir, id).Some? <==>
              !EndsWith(id, ".js") && exists q :: CoreJsAt(id, q)
    ensures ResolveCoreJsId(corejsDir, id).Some? ==>
              exists q :: CoreJsAt(id, q) &&
                ResolveCoreJsId(corejsDir, id).value == corejsDir + id[q + 8..] + ".js" &&
                forall q' :: 0 <= q' < q ==> !CoreJsAt(id, q')
  {
  }

  /** A bare `core-js/<path>` id resolves to `<corejsDir><path>.js`. */
  lemma ResolveCoreJsModule(corejsDir: string, path: string)
    requires path != [] && !EndsWith(path, ".js")
    requires forall j :: 0 <= j < |path| ==> !IsLineTerminator(path[j])
    ensures ResolveCoreJsId(corejsDir, "core-js/" + path) == Some(corejsDir + path + ".js")
  {
    var id := "core-js/" + path;
    assert id[0..8] == "core-js/";
    assert id[8..] == path;
    assert forall j :: 8 <= j < |id| ==> id[j] == path[j - 8];
    assert CoreJsAt(id, 0);
    if |path| >= 3 {
      assert id[|id| - 3..] == path[|path| - 3..];
    } else {
      assert id[|id| - 3] == '/' || id[|id| - 3] == 's';
    }
  }
}
