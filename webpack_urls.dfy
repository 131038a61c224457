/**
 * src/lib/transform-change-webpack-urls.js: recognises a webpack entry bundle among the
 * top-level statements of a program and rewrites the chunk-URL suffix inside its URL map,
 * so that chunks loaded by the legacy bundle are the legacy chunks.
 */
module ChangeWebpackUrls {

  import opened Wrappers
  import opened Ast

  // ---------------------------------------------------------------------------
  // unwrap

  /** `unwrap(path)`: strips expression statements and logical-not operators. */
  function Unwrap(n: Node): (r: Node)
    ensures !r.ExpressionStatement? && !(r.UnaryExpression? && r.operator == "!")
    ensures n.UnaryExpression? && n.operator != "!" ==> r == n
  {
    match n
    case ExpressionStatement(e) => Unwrap(e)
    case UnaryExpression(op, a) => if op == "!" then Unwrap(a) else n
    case _ => n
  }

  /** One layer that `unwrap` strips. */
  datatype Layer = Statement | Not

  function Wrap(layers: seq<Layer>, core: Node): Node
    decreases |layers|
  {
    if layers == [] then core
    else match layers[0]
      case Statement => ExpressionStatement(Wrap(layers[1..], core))
      case Not => UnaryExpression("!", Wrap(layers[1..], core))
  }

  /** The layers `unwrap` strips from `n`, outermost first. */
  function Layers(n: Node): seq<Layer> {
    match n
    case ExpressionStatement(e) => [Statement] + Layers(e)
    case UnaryExpression(op, a) => if op == "!" then [Not] + Layers(a) else []
    case _ => []
  }

  /** `unwrap` strips any nesting of statements and `!`, and nothing else. */
  lemma {:induction false} UnwrapWrap(layers: seq<Layer>, core: Node)
    ensures Unwrap(Wrap(layers, core)) == Unwrap(core)
    decreases |layers|
  {
    if layers != [] {
      UnwrapWrap(layers[1..], core);
    }
  }

  /** Every node is its unwrapped core under the layers `unwrap` removed. */
  lemma {:induction false} WrapLayersUnwrap(n: Node)
    ensures n == Wrap(Layers(n), Unwrap(n))
  {
    match n
    case ExpressionStatement(e) =>
      WrapLayersUnwrap(e);
      assert ([Statement] + Layers(e))[1..] == Layers(e);
    case UnaryExpression(op, a) =>
      if op == "!" {
        WrapLayersUnwrap(a);
        assert ([Not] + Layers(a))[1..] == Layers(a);
      }
    case _ =>
  }

  lemma UnwrapIdempotent(n: Node)
    ensures Unwrap(Unwrap(n)) == Unwrap(n)
  {
  }

  // ---------------------------------------------------------------------------
  // parseWebpackBootstrap: the identifier-property table and the confidence rule

  /** A member expression `a.q` is recorded only when both operands are identifiers, it is in
      the factory's own scope, and its parent is an assignment. */
  predicate Records(v: MemberVisit) {
    v.inFactoryScope && v.parentIsAssignment && v.base.Identifier? && v.property.Identifier?
  }

  /** `identifiers` after the traversal has met the member expressions `vs`, in order. */
  function Recorded(vs: seq<MemberVisit>): map<string, set<string>>
    decreases |vs|
  {
    if vs == [] then map[]
    else
      var ids := Recorded(vs[..|vs| - 1]);
      var v := vs[|vs| - 1];
      if Records(v) then
        var a := v.base.name;
        ids[a := (if a in ids then ids[a] else {}) + {v.property.name}]
      else ids
  }

  /** `v.p && v.c && v.oe`: the public path, module cache and error handler of webpack's
      runtime namespace object. */
  predicate IsNamespace(props: set<string>) {
    "p" in props && "c" in props && "oe" in props
  }

  predicate HasWebpackJsonp(ids: map<string, set<string>>) {
    "window" in ids && "webpackJsonp" in ids["window"]
  }

  predicate Confident(ids: map<string, set<string>>) {
    (exists a :: a in ids && IsNamespace(ids[a])) || HasWebpackJsonp(ids)
  }

  /** The table records `a.q` exactly when some recorded member expression reads `a.q`. */
  lemma {:induction false} RecordedIff(vs: seq<MemberVisit>, a: string, q: string)
    ensures a in Recorded(vs) && q in Recorded(vs)[a] <==>
              exists i :: 0 <= i < |vs| && Records(vs[i]) && vs[i].base == Identifier(a) && vs[i].property == Identifier(q)
    ensures a in Recorded(vs) <==>
              exists i :: 0 <= i < |vs| && Records(vs[i]) && vs[i].base == Identifier(a)
    decreases |vs|
  {
    if vs != [] {
      var front := vs[..|vs| - 1];
      RecordedIff(front, a, q);
      assert forall i :: 0 <= i < |front| ==> vs[i] == front[i];
    }
  }

  /** The member expressions of `vs` that record property `q` on identifier `a`. */
  predicate Assigns(vs: seq<MemberVisit>, a: string, q: string) {
    exists i :: 0 <= i < |vs| && Records(vs[i]) && vs[i].base == Identifier(a) && vs[i].property == Identifier(q)
  }

  /** The bootstrap is confident exactly when one identifier has `p`, `c` and `oe` assigned in
      the factory's own scope, or `window.webpackJsonp` is assigned there. */
  lemma ConfidentIff(vs: seq<MemberVisit>)
    ensures Confident(Recorded(vs)) <==>
              (exists a :: Assigns(vs, a, "p") && Assigns(vs, a, "c") && Assigns(vs, a, "oe"))
              || Assigns(vs, "window", "webpackJsonp")
  {
    var ids := Recorded(vs);
    forall a
      ensures a in ids && IsNamespace(ids[a]) <==> Assigns(vs, a, "p") && Assigns(vs, a, "c") && Assigns(vs, a, "oe")
    {
      RecordedIff(vs, a, "p");
      RecordedIff(vs, a, "c");
      RecordedIff(vs, a, "oe");
    }
    RecordedIff(vs, "window", "webpackJsonp");
  }

  /** `parseWebpackBootstrap(factory)`, the part that does not depend on binding resolution:
      fills `identifiers` while traversing, then looks for a namespace object in property
      insertion order, then for `window.webpackJsonp`. */
  method ParseWebpackBootstrap(members: seq<MemberVisit>) returns (identifiers: map<string, set<string>>, confident: bool)
    ensures identifiers == Recorded(members)
    ensures confident <==> Confident(identifiers)
  {
    identifiers := map[];
    var names: seq<string> := [];
    var i := 0;
    while i < |members|
      invariant 0 <= i <= |members|
      invariant identifiers == Recorded(members[..i])
      invariant forall a :: a in identifiers <==> a in names
    {
      var v := members[i];
      if v.inFactoryScope && v.parentIsAssignment && v.base.Identifier? && v.property.Identifier? {
        var a := v.base.name;
        if a !in identifiers {
          identifiers := identifiers[a := {}];
          names := names + [a];
        }
        identifiers := identifiers[a := identifiers[a] + {v.property.name}];
      }
      assert members[..i + 1][..i] == members[..i];
      i := i + 1;
    }
    assert members[..i] == members;
    confident := false;
    var j := 0;
    while j < |names|
      invariant 0 <= j <= |names|
      invariant !confident ==> forall k :: 0 <= k < j ==> !IsNamespace(identifiers[names[k]])
      invariant confident ==> Confident(identifiers)
    {
      if IsNamespace(identifiers[names[j]]) {
        confident := true;
        break;
      }
      j := j + 1;
    }
    if "window" in identifiers && "webpackJsonp" in identifiers["window"] {
      confident := true;
    }
  }

  // ---------------------------------------------------------------------------
  // getWebpackModules

  /** The module list of a bundle: array arguments are flattened one level, in order. */
  function Flatten(list: seq<Node>): seq<Node>
    decreases |list|
  {
    if list == [] then []
    else
      var m := list[|list| - 1];
      Flatten(list[..|list| - 1]) + (if m.ArrayExpression? then m.elements else [m])
  }

  predicate AllFunctions(ms: seq<Node>) {
    forall i :: 0 <= i < |ms| ==> ms[i].FunctionExpression?
  }

  /** Flattening distributes over concatenation: the order of the arguments is kept. */
  lemma {:induction false} FlattenConcat(a: seq<Node>, b: seq<Node>)
    ensures Flatten(a + b) == Flatten(a) + Flatten(b)
    decreases |b|
  {
    if b == [] {
      assert a + b == a;
    } else {
      var front := b[..|b| - 1];
      var m := b[|b| - 1];
      var items := if m.ArrayExpression? then m.elements else [m];
      FlattenConcat(a, front);
      assert (a + b)[..|a + b| - 1] == a + front;
      assert (a + b)[|a + b| - 1] == m;
      assert Flatten(a + b) == Flatten(a + front) + items;
      assert Flatten(b) == Flatten(front) + items;
    }
  }

  /** Each argument contributes its elements when it is an array, and itself otherwise. */
  lemma FlattenOne(m: Node)
    ensures Flatten([m]) == if m.ArrayExpression? then m.elements else [m]
  {
    assert [m][..0] == [];
  }

  /** `getWebpackModules(list)`: pushes every function expression, throwing on anything else. */
  method GetWebpackModules(list: seq<Node>) returns (r: Result<seq<Node>, string>)
    ensures r.Success? <==> AllFunctions(Flatten(list))
    ensures r.Success? ==> r.value == Flatten(list)
    ensures r.Failure? ==> r.error == "Not a webpack bundle"
  {
    var modules: seq<Node> := [];
    var i := 0;
    while i < |list|
      invariant 0 <= i <= |list|
      invariant modules == Flatten(list[..i]) && AllFunctions(modules)
    {
      var m := list[i];
      var items := if m.ArrayExpression? then m.elements else [m];
      var j := 0;
      while j < |items|
        invariant 0 <= j <= |items|
        invariant modules == Flatten(list[..i]) + items[..j] && AllFunctions(modules)
      {
        if !items[j].FunctionExpression? {
          FlattenPrefixFails(list, i, items, j);
          return Failure("Not a webpack bundle");
        }
        modules := modules + [items[j]];
        assert items[..j + 1] == items[..j] + [items[j]];
        j := j + 1;
      }
      assert list[..i + 1][..i] == list[..i];
      assert items[..j] == items;
      i := i + 1;
    }
    assert list[..i] == list;
    return Success(modules);
  }

  /** A non-function among the items of argument `i` makes the whole flattening fail. */
  lemma FlattenPrefixFails(list: seq<Node>, i: nat, items: seq<Node>, j: nat)
    requires i < |list| && j < |items|
    requires items == (if list[i].ArrayExpression? then list[i].elements else [list[i]])
    requires !items[j].FunctionExpression?
    ensures !AllFunctions(Flatten(list))
  {
    var head := list[..i + 1];
    FlattenPrefix(list, i + 1);
    assert head[..i] == list[..i];
    assert Flatten(head) == Flatten(list[..i]) + items;
    var k := |Flatten(list[..i])| + j;
    assert Flatten(head)[k] == items[j];
    assert Flatten(list)[k] == Flatten(head)[k];
  }

  lemma {:induction false} FlattenPrefix(list: seq<Node>, n: nat)
    requires n <= |list|
    ensures Flatten(list[..n]) <= Flatten(list)
    decreases |list|
  {
    if n < |list| {
      var front := list[..|list| - 1];
      assert list[..n] == front[..n];
      FlattenPrefix(front, n);
    } else {
      assert list[..n] == list;
    }
  }

  // ---------------------------------------------------------------------------
  // getWebpackBootstrap

  /** What `getWebpackBootstrap` returns for a webpack bundle: its URL map and its modules. */
  datatype Bootstrap = Bootstrap(urlMap: Option<Node>, modules: seq<Node>)

  /** `getWebpackBootstrap(path)`: `None` for `false`, `Failure` for the exception thrown by
      `getWebpackModules`. */
  function BootstrapOf(n: Node): Result<Option<Bootstrap>, string> {
    var u := Unwrap(n);
    if !u.CallExpression? || !u.callee.FunctionExpression? then Success(None)
    else if !Confident(Recorded(u.callee.members)) then Success(None)
    else if !AllFunctions(Flatten(u.arguments)) then Failure("Not a webpack bundle")
    else Success(Some(Bootstrap(u.callee.urlMap, Flatten(u.arguments))))
  }

  /** A bootstrap is found only for a call of a function expression whose body is confidently a
      webpack runtime; then the failure is the one of `getWebpackModules`. */
  lemma BootstrapOfSpec(n: Node)
    ensures BootstrapOf(n) != Success(None) <==>
              Unwrap(n).CallExpression? && Unwrap(n).callee.FunctionExpression? &&
              Confident(Recorded(Unwrap(n).callee.members))
    ensures BootstrapOf(n).Failure? ==> BootstrapOf(n).error == "Not a webpack bundle"
    ensures forall layers :: BootstrapOf(Wrap(layers, n)) == BootstrapOf(n)
  {
    forall layers ensures BootstrapOf(Wrap(layers, n)) == BootstrapOf(n) {
      UnwrapWrap(layers, n);
    }
  }

  method GetWebpackBootstrap(n: Node) returns (r: Result<Option<Bootstrap>, string>)
    ensures r == BootstrapOf(n)
  {
    var u := Unwrap(n);
    if !u.CallExpression? {
      return Success(None);
    }
    var factory := u.callee;
    if !factory.FunctionExpression? {
      return Success(None);
    }
    var _, confident := ParseWebpackBootstrap(factory.members);
    if !confident {
      return Success(None);
    }
    var modules := GetWebpackModules(u.arguments);
    if modules.Failure? {
      return Failure(modules.error);
    }
    return Success(Some(Bootstrap(factory.urlMap, modules.value)));
  }

  // ---------------------------------------------------------------------------
  // The URL rewrite

  predicate EndsWith(s: string, suffix: string) {
    |suffix| <= |s| && s[|s| - |suffix|..] == suffix
  }

  /** `/\.js$/.test(value)`. */
  predicate EndsWithJs(s: string) {
    EndsWith(s, ".js")
  }

  /** The plugin's options. A pattern is modelled as a regular expression that matches a fixed
      text at the end of the input (`/\.js$/` is `Some(".js")`). */
  datatype UrlOptions = UrlOptions(pattern: Option<string>, replacement: Option<string>)

  /** The pattern and replacement actually used: `opts.pattern || /\.js$/` and
      `opts.replacement || '.modern.js'`. */
  datatype UrlRule = UrlRule(suffix: string, replacement: string)

  function RuleOf(opts: UrlOptions): (rule: UrlRule)
    ensures opts.pattern == None ==> rule.suffix == ".js"
    ensures opts.replacement == None || opts.replacement == Some("") ==> rule.replacement == ".modern.js"
    ensures opts.replacement.Some? && opts.replacement.value != "" ==> rule.replacement == opts.replacement.value
  {
    UrlRule(
      if opts.pattern.Some? then opts.pattern.value else ".js",
      if opts.replacement.Some? && opts.replacement.value != "" then opts.replacement.value else ".modern.js")
  }

  /** The options the worker passes: `{ pattern: /\.js$/, replacement: '.legacy.js' }`. */
  const WorkerOptions := UrlOptions(Some(".js"), Some(".legacy.js"))

  /** The replacement text of `String.prototype.replace` for a match without capture groups
      that ends the input: `$$`, `$&` and `` $` `` are expanded, `$'` is empty, and every other
      character is copied. */
  function Expand(rep: string, matched: string, before: string): string
    decreases |rep|
  {
    if rep == [] then []
    else if |rep| >= 2 && rep[0] == '$' && rep[1] == '$' then "$" + Expand(rep[2..], matched, before)
    else if |rep| >= 2 && rep[0] == '$' && rep[1] == '&' then matched + Expand(rep[2..], matched, before)
    else if |rep| >= 2 && rep[0] == '$' && rep[1] == '`' then before + Expand(rep[2..], matched, before)
    else if |rep| >= 2 && rep[0] == '$' && rep[1] == '\'' then Expand(rep[2..], matched, before)
    else [rep[0]] + Expand(rep[1..], matched, before)
  }

  /** A replacement without `$` is inserted as it is. */
  lemma {:induction false} ExpandPlain(rep: string, matched: string, before: string)
    requires '$' !in rep
    ensures Expand(rep, matched, before) == rep
    decreases |rep|
  {
    if rep != [] {
      ExpandPlain(rep[1..], matched, before);
    }
  }

  /** `value.replace(pattern, replacement)`. */
  function Apply(rule: UrlRule, value: string): string {
    if EndsWith(value, rule.suffix) then
      var before := value[..|value| - |rule.suffix|];
      before + Expand(rule.replacement, rule.suffix, before)
    else value
  }

  /** The value keeps everything before the matched suffix, which becomes the replacement;
      a value the pattern does not match is returned as it is. */
  lemma ApplySpec(rule: UrlRule, value: string)
    requires '$' !in rule.replacement
    ensures EndsWith(value, rule.suffix) ==>
              Apply(rule, value) == value[..|value| - |rule.suffix|] + rule.replacement
    ensures !EndsWith(value, rule.suffix) ==> Apply(rule, value) == value
  {
    if EndsWith(value, rule.suffix) {
      ExpandPlain(rule.replacement, rule.suffix, value[..|value| - |rule.suffix|]);
    }
  }

  /** With the worker's options a chunk URL ending in `.js` ends in `.legacy.js` instead;
      with no options, in `.modern.js`. */
  lemma WorkerRule(v: string)
    requires EndsWithJs(v)
    ensures Apply(RuleOf(WorkerOptions), v) == v[..|v| - 3] + ".legacy.js"
  {
    ApplySpec(RuleOf(WorkerOptions), v);
  }

  lemma DefaultRule(v: string)
    requires EndsWithJs(v)
    ensures Apply(RuleOf(UrlOptions(None, None)), v) == v[..|v| - 3] + ".modern.js"
  {
    ApplySpec(RuleOf(UrlOptions(None, None)), v);
  }

  /** `StringLiteral` visitor, applied to `n` and then (unless it stopped) its descendants in
      pre-order: the first literal ending in `.js` is rewritten and the traversal stops. The
      flag says whether it stopped. */
  function RewriteNode(n: Node, rule: UrlRule): (Node, bool)
    decreases n, 1
  {
    if n.StringLiteral? && EndsWithJs(n.value) then (StringLiteral(Apply(rule, n.value)), true)
    else RewriteKids(n, rule)
  }

  /** The traversal of the descendants of `n` (Babel's `path.traverse` does not visit `n`). */
  function RewriteKids(n: Node, rule: UrlRule): (Node, bool)
    decreases n, 0
  {
    match n
    case ExpressionStatement(e) =>
      var (e', d) := RewriteNode(e, rule); (ExpressionStatement(e'), d)
    case UnaryExpression(op, a) =>
      var (a', d) := RewriteNode(a, rule); (UnaryExpression(op, a'), d)
    case CallExpression(c, args) =>
      var (c', d) := RewriteNode(c, rule);
      if d then (CallExpression(c', args), true)
      else var (args', d') := RewriteSeq(args, rule); (CallExpression(c, args'), d')
    case ArrayExpression(els) =>
      var (els', d) := RewriteSeq(els, rule); (ArrayExpression(els'), d)
    case Other(kind, kids) =>
      var (kids', d) := RewriteSeq(kids, rule); (Other(kind, kids'), d)
    case _ => (n, false)
  }

  function RewriteSeq(ns: seq<Node>, rule: UrlRule): (seq<Node>, bool)
    decreases ns
  {
    if ns == [] then ([], false)
    else
      var (h, d) := RewriteNode(ns[0], rule);
      if d then ([h] + ns[1..], true)
      else var (t, d') := RewriteSeq(ns[1..], rule); ([ns[0]] + t, d')
  }

  /** The string literals of `n` and its descendants, in pre-order. */
  function Literals(n: Node): seq<string>
    decreases n, 1
  {
    if n.StringLiteral? then [n.value] else KidLiterals(n)
  }

  function KidLiterals(n: Node): seq<string>
    decreases n, 0
  {
    match n
    case ExpressionStatement(e) => Literals(e)
    case UnaryExpression(_, a) => Literals(a)
    case CallExpression(c, args) => Literals(c) + SeqLiterals(args)
    case ArrayExpression(els) => SeqLiterals(els)
    case Other(_, kids) => SeqLiterals(kids)
    case _ => []
  }

  function SeqLiterals(ns: seq<Node>): seq<string>
    decreases ns
  {
    if ns == [] then [] else Literals(ns[0]) + SeqLiterals(ns[1..])
  }

  /** The tree with every string literal emptied: its shape. */
  function Blank(n: Node): Node {
    match n
    case StringLiteral(_) => StringLiteral("")
    case ExpressionStatement(e) => ExpressionStatement(Blank(e))
    case UnaryExpression(op, a) => UnaryExpression(op, Blank(a))
    case CallExpression(c, args) => CallExpression(Blank(c), BlankSeq(args))
    case ArrayExpression(els) => ArrayExpression(BlankSeq(els))
    case Other(kind, kids) => Other(kind, BlankSeq(kids))
    case _ => n
  }

  function BlankSeq(ns: seq<Node>): seq<Node> {
    if ns == [] then [] else [Blank(ns[0])] + BlankSeq(ns[1..])
  }

  predicate HasJs(ls: seq<string>) {
    exists i :: 0 <= i < |ls| && EndsWithJs(ls[i])
  }

  /** The reference definition: in a list of literal values, the first one ending in `.js` is
      replaced. */
  function ReplaceFirstJs(ls: seq<string>, rule: UrlRule): seq<string> {
    if ls == [] then []
    else if EndsWithJs(ls[0]) then [Apply(rule, ls[0])] + ls[1..]
    else [ls[0]] + ReplaceFirstJs(ls[1..], rule)
  }

  lemma {:induction false} ReplaceFirstJsConcat(a: seq<string>, b: seq<string>, rule: UrlRule)
    ensures ReplaceFirstJs(a + b, rule) ==
              if HasJs(a) then ReplaceFirstJs(a, rule) + b else a + ReplaceFirstJs(b, rule)
    decreases |a|
  {
    if a == [] {
      assert a + b == b;
      assert !HasJs(a);
    } else {
      var ab := a + b;
      assert ab[0] == a[0];
      assert ab[1..] == a[1..] + b;
      HasJsCons(a);
      if !EndsWithJs(a[0]) {
        ReplaceFirstJsConcat(a[1..], b, rule);
        assert ReplaceFirstJs(ab, rule) == [a[0]] + ReplaceFirstJs(a[1..] + b, rule);
        if !HasJs(a) {
          assert [a[0]] + (a[1..] + ReplaceFirstJs(b, rule)) == a + ReplaceFirstJs(b, rule);
        }
      }
    }
  }

  lemma HasJsCons(a: seq<string>)
    requires a != []
    ensures HasJs(a) <==> EndsWithJs(a[0]) || HasJs(a[1..])
  {
    if HasJs(a) && !EndsWithJs(a[0]) {
      var i :| 0 <= i < |a| && EndsWithJs(a[i]);
      assert a[1..][i - 1] == a[i];
    }
    if HasJs(a[1..]) {
      var i :| 0 <= i < |a[1..]| && EndsWithJs(a[1..][i]);
      assert a[i + 1] == a[1..][i];
    }
    if EndsWithJs(a[0]) {
      assert 0 < |a|;
    }
  }

  /** The rewrite keeps the tree's shape, replaces exactly the first literal ending in `.js`
      (pre-order), and stops exactly when there is one. */
  lemma {:induction false} RewriteNodeSpec(n: Node, rule: UrlRule)
    ensures Blank(RewriteNode(n, rule).0) == Blank(n)
    ensures Literals(RewriteNode(n, rule).0) == ReplaceFirstJs(Literals(n), rule)
    ensures RewriteNode(n, rule).1 <==> HasJs(Literals(n))
    decreases n, 1
  {
    if n.StringLiteral? && EndsWithJs(n.value) {
      assert EndsWithJs(Literals(n)[0]);
    } else {
      RewriteKidsSpec(n, rule);
      if n.StringLiteral? {
        assert !HasJs(Literals(n));
      }
    }
  }

  /** The same for the descendants of `n` only: what `urlMap.traverse` does. */
  lemma {:induction false} RewriteKidsSpec(n: Node, rule: UrlRule)
    ensures Blank(RewriteKids(n, rule).0) == Blank(n)
    ensures KidLiterals(RewriteKids(n, rule).0) == ReplaceFirstJs(KidLiterals(n), rule)
    ensures RewriteKids(n, rule).1 <==> HasJs(KidLiterals(n))
    decreases n, 0
  {
    match n
    case ExpressionStatement(e) =>
      RewriteNodeSpec(e, rule);
    case UnaryExpression(op, a) =>
      RewriteNodeSpec(a, rule);
    case CallExpression(c, args) =>
      RewriteNodeSpec(c, rule);
      RewriteSeqSpec(args, rule);
      ReplaceFirstJsConcat(Literals(c), SeqLiterals(args), rule);
      HasJsConcat(Literals(c), SeqLiterals(args));
    case ArrayExpression(els) =>
      RewriteSeqSpec(els, rule);
    case Other(kind, kids) =>
      RewriteSeqSpec(kids, rule);
    case _ =>
  }

  lemma {:induction false} RewriteSeqSpec(ns: seq<Node>, rule: UrlRule)
    ensures BlankSeq(RewriteSeq(ns, rule).0) == BlankSeq(ns)
    ensures SeqLiterals(RewriteSeq(ns, rule).0) == ReplaceFirstJs(SeqLiterals(ns), rule)
    ensures RewriteSeq(ns, rule).1 <==> HasJs(SeqLiterals(ns))
    decreases ns
  {
    if ns != [] {
      var (h, d) := RewriteNode(ns[0], rule);
      RewriteNodeSpec(ns[0], rule);
      ReplaceFirstJsConcat(Literals(ns[0]), SeqLiterals(ns[1..]), rule);
      HasJsConcat(Literals(ns[0]), SeqLiterals(ns[1..]));
      if d {
        var r := [h] + ns[1..];
        assert r[0] == h && r[1..] == ns[1..];
      } else {
        var (t, d') := RewriteSeq(ns[1..], rule);
        RewriteSeqSpec(ns[1..], rule);
        var r := [ns[0]] + t;
        assert r[0] == ns[0] && r[1..] == t;
      }
    }
  }

  lemma HasJsConcat(a: seq<string>, b: seq<string>)
    ensures HasJs(a + b) <==> HasJs(a) || HasJs(b)
  {
    if HasJs(a + b) {
      var i :| 0 <= i < |a + b| && EndsWithJs((a + b)[i]);
      if i >= |a| {
        assert b[i - |a|] == (a + b)[i];
      } else {
        assert a[i] == (a + b)[i];
      }
    }
    if HasJs(a) {
      var i :| 0 <= i < |a| && EndsWithJs(a[i]);
      assert (a + b)[i] == a[i];
    }
    if HasJs(b) {
      var i :| 0 <= i < |b| && EndsWithJs(b[i]);
      assert (a + b)[i + |a|] == b[i];
    }
  }

  // ---------------------------------------------------------------------------
  // The Program visitor

  /** Follows the `unwrap` chain down to the bootstrap call and installs a new URL map in its
      factory. */
  function WithUrlMap(n: Node, m: Node): (r: Node)
    ensures Layers(r) == Layers(n)
    ensures Unwrap(n).CallExpression? && Unwrap(n).callee.FunctionExpression? ==>
              Unwrap(r) == CallExpression(Unwrap(n).callee.(urlMap := Some(m)), Unwrap(n).arguments)
  {
    match n
    case ExpressionStatement(e) => ExpressionStatement(WithUrlMap(e, m))
    case UnaryExpression(op, a) => if op == "!" then UnaryExpression(op, WithUrlMap(a, m)) else n
    case CallExpression(c, args) =>
      if c.FunctionExpression? then CallExpression(c.(urlMap := Some(m)), args) else n
    case _ => n
  }

  /** One top-level statement after the visitor: a bootstrap with a URL map gets its map
      rewritten; anything else is kept. */
  function RewriteStatement(stmt: Node, rule: UrlRule): Result<Node, string> {
    match BootstrapOf(stmt)
    case Failure(e) => Failure(e)
    case Success(None) => Success(stmt)
    case Success(Some(b)) =>
      if b.urlMap.None? then Success(stmt)
      else Success(WithUrlMap(stmt, RewriteKids(b.urlMap.value, rule).0))
  }

  /** The statements after `path.get('body').forEach(...)`, or the first exception. */
  function RewriteProgram(stmts: seq<Node>, rule: UrlRule): Result<seq<Node>, string>
    decreases |stmts|
  {
    if stmts == [] then Success([])
    else match RewriteProgram(stmts[..|stmts| - 1], rule)
      case Failure(e) => Failure(e)
      case Success(front) =>
        match RewriteStatement(stmts[|stmts| - 1], rule)
        case Failure(e) => Failure(e)
        case Success(s) => Success(front + [s])
  }

  /** Statements that are not bootstraps, or have no URL map, are left unchanged; in a
      bootstrap only the URL map changes, and in it only the first `.js` literal. */
  lemma RewriteStatementSpec(stmt: Node, rule: UrlRule)
    ensures BootstrapOf(stmt) == Success(None) ==> RewriteStatement(stmt, rule) == Success(stmt)
    ensures (BootstrapOf(stmt).Success? && BootstrapOf(stmt).value.Some? &&
             BootstrapOf(stmt).value.value.urlMap.None?) ==> RewriteStatement(stmt, rule) == Success(stmt)
    ensures BootstrapOf(stmt).Failure? <==> RewriteStatement(stmt, rule).Failure?
    ensures (BootstrapOf(stmt).Success? && BootstrapOf(stmt).value.Some? &&
             BootstrapOf(stmt).value.value.urlMap.Some?) ==>
              var u := BootstrapOf(stmt).value.value.urlMap.value;
              var u' := Unwrap(RewriteStatement(stmt, rule).value).callee.urlMap.value;
              Blank(u') == Blank(u) && KidLiterals(u') == ReplaceFirstJs(KidLiterals(u), rule)
  {
    if BootstrapOf(stmt).Success? && BootstrapOf(stmt).value.Some? && BootstrapOf(stmt).value.value.urlMap.Some? {
      RewriteKidsSpec(BootstrapOf(stmt).value.value.urlMap.value, rule);
    }
  }

  /** The visitor succeeds exactly when every statement does, and then rewrites each statement
      on its own, keeping their number and order. */
  lemma {:induction false} RewriteProgramSpec(stmts: seq<Node>, rule: UrlRule)
    ensures RewriteProgram(stmts, rule).Success? <==>
              forall i :: 0 <= i < |stmts| ==> RewriteStatement(stmts[i], rule).Success?
    ensures RewriteProgram(stmts, rule).Success? ==>
              |RewriteProgram(stmts, rule).value| == |stmts| &&
              forall i :: 0 <= i < |stmts| ==> RewriteProgram(stmts, rule).value[i] == RewriteStatement(stmts[i], rule).value
    decreases |stmts|
  {
    if stmts != [] {
      var front := stmts[..|stmts| - 1];
      RewriteProgramSpec(front, rule);
      assert forall i :: 0 <= i < |front| ==> stmts[i] == front[i];
    }
  }

  /** The `Program` visitor over the top-level statements, rewriting in place. On an exception
      from `getWebpackModules`, the statements before the failing one are already rewritten. */
  method TransformProgram(body: array<Node>, opts: UrlOptions) returns (error: Option<string>)
    modifies body
    ensures error.None? <==> RewriteProgram(old(body[..]), RuleOf(opts)).Success?
    ensures error.None? ==> body[..] == RewriteProgram(old(body[..]), RuleOf(opts)).value
    ensures error.Some? ==> error.value == "Not a webpack bundle"
  {
    var rule := RuleOf(opts);
    ghost var original := body[..];
    var i := 0;
    while i < body.Length
      invariant 0 <= i <= body.Length
      invariant RewriteProgram(original[..i], rule).Success?
      invariant body[..i] == RewriteProgram(original[..i], rule).value
      invariant forall k :: i <= k < body.Length ==> body[k] == original[k]
    {
      assert original[..i + 1][..i] == original[..i];
      var stmt := body[i];
      assert stmt == original[i];
      var bootstrap := GetWebpackBootstrap(stmt);
      if bootstrap.Failure? {
        BootstrapOfSpec(stmt);
        RewriteFailurePropagates(original, i, rule);
        return Some(bootstrap.error);
      }
      if bootstrap.value.Some? && bootstrap.value.value.urlMap.Some? {
        var (urlMap, _) := RewriteKids(bootstrap.value.value.urlMap.value, rule);
        body[i] := WithUrlMap(stmt, urlMap);
      }
      assert body[..i + 1] == body[..i] + [body[i]];
      i := i + 1;
    }
    assert original[..i] == original;
    assert body[..] == body[..i];
    assert body.Length == |original|;
    return None;
  }

  /** A failing statement makes every longer program fail. */
  lemma RewriteFailurePropagates(stmts: seq<Node>, i: nat, rule: UrlRule)
    requires i < |stmts| && RewriteStatement(stmts[i], rule).Failure?
    ensures !RewriteProgram(stmts, rule).Success?
  {
    RewriteProgramSpec(stmts, rule);
  }
}
