/**
 * src/lib/transform-extract-polyfills.js: a Babel plugin that reports the source of every
 * import declaration to the caller's `onPolyfill` callback and removes the declaration. The
 * worker (src/worker.js) runs it after `@babel/preset-env` has added core-js imports, and
 * collects the reports into a `Set`.
 */
module ExtractPolyfills {

  import opened Ast
  import OrderedSet

  /** The sources of the import declarations among `stmts`, in program order. */
  function Imports(stmts: seq<Node>): (r: seq<string>)
    ensures |r| <= |stmts|
    decreases |stmts|
  {
    if stmts == [] then []
    else
      var last := stmts[|stmts| - 1];
      Imports(stmts[..|stmts| - 1]) + (if last.ImportDeclaration? then [last.source] else [])
  }

  /** The statements that are not import declarations, in program order. */
  function NonImports(stmts: seq<Node>): (r: seq<Node>)
    ensures |r| <= |stmts|
    ensures forall i :: 0 <= i < |r| ==> !r[i].ImportDeclaration?
    decreases |stmts|
  {
    if stmts == [] then []
    else
      var last := stmts[|stmts| - 1];
      NonImports(stmts[..|stmts| - 1]) + (if last.ImportDeclaration? then [] else [last])
  }

  /** A program whose top-level statements the plugin edits in place. */
  class Program {
    var body: seq<Node>

    constructor (body: seq<Node>)
      ensures this.body == body
    {
      this.body := body;
    }
  }

  /** The worker's `polyfills` set: a JavaScript `Set`, iterated in insertion order. */
  class PolyfillSet {
    var items: seq<string>

    constructor ()
      ensures items == []
    {
      items := [];
    }

    /** `onPolyfill(specifier)`, i.e. `polyfills.add(specifier)`. */
    method Add(specifier: string)
      modifies this
      ensures items == OrderedSet.Add(old(items), specifier)
    {
      if specifier !in items {
        items := items + [specifier];
      }
    }
  }

  /** The `ImportDeclaration` visitor over a program: each import is reported, then removed. */
  method Extract(program: Program, polyfills: PolyfillSet)
    modifies program, polyfills
    ensures program.body == NonImports(old(program.body))
    ensures polyfills.items == OrderedSet.AddAll(old(polyfills.items), Imports(old(program.body)))
  {
    ghost var original := program.body;
    ghost var seen := polyfills.items;
    ghost var j := 0;
    var i := 0;
    while i < |program.body|
      invariant 0 <= j <= |original|
      invariant program.body == NonImports(original[..j]) + original[j..]
      invariant i == |NonImports(original[..j])|
      invariant polyfills.items == OrderedSet.AddAll(seen, Imports(original[..j]))
      decreases |program.body| - i
    {
      ExtractStep(original, j, program.body, i);
      var stmt := program.body[i];
      if stmt.ImportDeclaration? {
        OrderedSet.AddAllSnoc(seen, Imports(original[..j]), stmt.source);
        polyfills.Add(stmt.source);
        program.body := program.body[..i] + program.body[i + 1..];
      } else {
        i := i + 1;
      }
      j := j + 1;
    }
    assert original[..j] == original;
  }

  /** One visit of `Extract`: the statement at the cursor is the next original one; an import
      is cut out of the body, anything else is stepped over. */
  lemma ExtractStep(original: seq<Node>, j: nat, body: seq<Node>, i: nat)
    requires j <= |original|
    requires body == NonImports(original[..j]) + original[j..]
    requires i == |NonImports(original[..j])| && i < |body|
    ensures j < |original| && body[i] == original[j]
    ensures original[j].ImportDeclaration? ==>
              body[..i] + body[i + 1..] == NonImports(original[..j + 1]) + original[j + 1..] &&
              i == |NonImports(original[..j + 1])| &&
              Imports(original[..j + 1]) == Imports(original[..j]) + [original[j].source]
    ensures !original[j].ImportDeclaration? ==>
              body == NonImports(original[..j + 1]) + original[j + 1..] &&
              i + 1 == |NonImports(original[..j + 1])| &&
              Imports(original[..j + 1]) == Imports(original[..j])
  {
    Step(original, j);
    SplitAt(NonImports(original[..j]), original[j..]);
  }

  /** What one more statement adds to both lists. */
  lemma Step(stmts: seq<Node>, j: nat)
    requires j < |stmts|
    ensures stmts[j..][0] == stmts[j] && stmts[j..][1..] == stmts[j + 1..]
    ensures Imports(stmts[..j + 1]) == Imports(stmts[..j]) + (if stmts[j].ImportDeclaration? then [stmts[j].source] else [])
    ensures NonImports(stmts[..j + 1]) == NonImports(stmts[..j]) + (if stmts[j].ImportDeclaration? then [] else [stmts[j]])
  {
    assert stmts[..j + 1][..j] == stmts[..j];
  }

  /** Removing, or stepping over, the element that follows a prefix. */
  lemma SplitAt<T>(front: seq<T>, rest: seq<T>)
    requires rest != []
    ensures (front + rest)[|front|] == rest[0]
    ensures (front + rest)[..|front|] + (front + rest)[|front| + 1..] == front + rest[1..]
    ensures front + rest == (front + [rest[0]]) + rest[1..]
  {
    assert (front + rest)[..|front|] == front;
    assert (front + rest)[|front| + 1..] == rest[1..];
  }

  lemma Snoc(stmts: seq<Node>, n: Node)
    ensures Imports(stmts + [n]) == Imports(stmts) + (if n.ImportDeclaration? then [n.source] else [])
    ensures NonImports(stmts + [n]) == NonImports(stmts) + (if n.ImportDeclaration? then [] else [n])
  {
    assert (stmts + [n])[..|stmts|] == stmts;
  }

  /** Splitting a program splits the reported sources: the plugin keeps program order. */
  lemma {:induction false} ImportsConcat(a: seq<Node>, b: seq<Node>)
    ensures Imports(a + b) == Imports(a) + Imports(b)
    decreases |b|
  {
    if b == [] {
      assert a + b == a;
    } else {
      var front := b[..|b| - 1];
      var last := b[|b| - 1];
      ImportsConcat(a, front);
      assert (a + b)[..|a + b| - 1] == a + front;
      assert (a + b)[|a + b| - 1] == last;
      var t := if last.ImportDeclaration? then [last.source] else [];
      assert Imports(a + b) == Imports(a + front) + t;
      assert Imports(b) == Imports(front) + t;
      assert Imports(a + front) == Imports(a) + Imports(front);
    }
  }

  /** Splitting a program splits the kept statements: their order is unchanged. */
  lemma {:induction false} NonImportsConcat(a: seq<Node>, b: seq<Node>)
    ensures NonImports(a + b) == NonImports(a) + NonImports(b)
    decreases |b|
  {
    if b == [] {
      assert a + b == a;
    } else {
      var front := b[..|b| - 1];
      var last := b[|b| - 1];
      NonImportsConcat(a, front);
      assert a + b == (a + front) + [last];
      Snoc(a + front, last);
      Snoc(front, last);
      assert b == front + [last];
    }
  }

  /** Every import declaration's source is reported, and nothing else is. */
  lemma {:induction false} ImportsIff(stmts: seq<Node>, x: string)
    ensures x in Imports(stmts) <==> ImportDeclaration(x) in stmts
    decreases |stmts|
  {
    if stmts != [] {
      var front := stmts[..|stmts| - 1];
      ImportsIff(front, x);
      assert stmts == front + [stmts[|stmts| - 1]];
    }
  }

  /** Every statement that is not an import is kept. */
  lemma {:induction false} NonImportsIff(stmts: seq<Node>, n: Node)
    ensures n in NonImports(stmts) <==> n in stmts && !n.ImportDeclaration?
    decreases |stmts|
  {
    if stmts != [] {
      var front := stmts[..|stmts| - 1];
      NonImportsIff(front, n);
      assert stmts == front + [stmts[|stmts| - 1]];
    }
  }

  /** Running the plugin a second time reports nothing and removes nothing. */
  lemma {:induction false} ExtractIdempotent(stmts: seq<Node>)
    ensures Imports(NonImports(stmts)) == []
    ensures NonImports(NonImports(stmts)) == NonImports(stmts)
  {
    NoImportsFixed(NonImports(stmts));
  }

  lemma {:induction false} NoImportsFixed(stmts: seq<Node>)
    requires forall i :: 0 <= i < |stmts| ==> !stmts[i].ImportDeclaration?
    ensures Imports(stmts) == [] && NonImports(stmts) == stmts
    decreases |stmts|
  {
    if stmts != [] {
      NoImportsFixed(stmts[..|stmts| - 1]);
    }
  }

  /** The worker's polyfill list, `Array.from(polyfills)` after one run on a program, holds
      each reported source once, in the order of its first import. */
  lemma WorkerPolyfills(stmts: seq<Node>)
    ensures OrderedSet.NoDups(OrderedSet.FromSeq(Imports(stmts)))
    ensures forall x :: x in OrderedSet.FromSeq(Imports(stmts)) <==> x in Imports(stmts)
    ensures forall x :: x in OrderedSet.FromSeq(Imports(stmts)) <==> ImportDeclaration(x) in stmts
    ensures forall i, j :: 0 <= i < j < |OrderedSet.FromSeq(Imports(stmts))| ==>
              OrderedSet.FirstIndex(Imports(stmts), OrderedSet.FromSeq(Imports(stmts))[i]) <
              OrderedSet.FirstIndex(Imports(stmts), OrderedSet.FromSeq(Imports(stmts))[j])
  {
    OrderedSet.FromSeqFirstSeenOrder(Imports(stmts));
    forall x ensures x in Imports(stmts) <==> ImportDeclaration(x) in stmts {
      ImportsIff(stmts, x);
    }
  }
}
