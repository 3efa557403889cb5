// The tree of Rust modules the code generator emits: items at each node, children keyed by
// module name. The source mutates nodes in place through a `BTreeMap`; here a tree is a value
// and every insertion returns the new tree.
module ModuleTrees {

  /** `ModuleTree`: the items at this level and the submodules by name. */
  datatype Tree<T> = Tree(items: seq<T>, children: map<string, Tree<T>>)

  /** `ModuleTree::default`: no items and no submodules. */
  function Empty<T>(): Tree<T>
  {
    Tree([], map[])
  }

  /** `add_item`: an empty path puts `x` after this node's items; otherwise the item goes into
      the submodule named by the first segment, which is created if absent. */
  function AddItem<T>(t: Tree<T>, path: seq<string>, x: T): Tree<T>
    decreases |path|
  {
    if path == [] then Tree(t.items + [x], t.children)
    else
      var sub := if path[0] in t.children then t.children[path[0]] else Empty();
      Tree(t.items, t.children[path[0] := AddItem(sub, path[1..], x)])
  }

  /** The items stored at the node addressed by `path`; none when there is no such node. */
  function At<T>(t: Tree<T>, path: seq<string>): seq<T>
    decreases |path|
  {
    if path == [] then t.items
    else if path[0] in t.children then At(t.children[path[0]], path[1..])
    else []
  }

  /** The items of `xs` whose path is `path`, in their original order. */
  function Placed<T>(xs: seq<T>, pathOf: T -> seq<string>, path: seq<string>): (r: seq<T>)
    ensures |r| <= |xs|
  {
    if xs == [] then []
    else
      var init := Placed(xs[..|xs| - 1], pathOf, path);
      if pathOf(xs[|xs| - 1]) == path then init + [xs[|xs| - 1]] else init
  }

  /** `from_iter` as a value: the items inserted one after the other, each at its own path. */
  function Collect<T>(xs: seq<T>, pathOf: T -> seq<string>): Tree<T>
  {
    if xs == [] then Empty()
    else AddItem(Collect(xs[..|xs| - 1], pathOf), pathOf(xs[|xs| - 1]), xs[|xs| - 1])
  }

  /** `from_iter`: starts from the default tree and adds every item at its name's path. */
  method FromIter<T>(xs: seq<T>, pathOf: T -> seq<string>) returns (tree: Tree<T>)
    ensures tree == Collect(xs, pathOf)
    ensures forall path :: At(tree, path) == Placed(xs, pathOf, path)
  {
    tree := Empty();
    for i := 0 to |xs|
      invariant tree == Collect(xs[..i], pathOf)
    {
      assert xs[..i + 1][..i] == xs[..i];
      tree := AddItem(tree, pathOf(xs[i]), xs[i]);
    }
    assert xs[..|xs|] == xs;
    forall path {
      CollectAt(xs, pathOf, path);
    }
  }

  /** Adding at `path` appends `x` to the node at `path` and to no other node; subtrees off
      the path, and existing subtrees on it, are kept. */
  lemma {:induction false} AddItemAt<T>(t: Tree<T>, path: seq<string>, x: T, q: seq<string>)
    ensures At(AddItem(t, path, x), q) == At(t, q) + (if q == path then [x] else [])
    decreases |path|
  {
    if path == [] {
      if q != [] {
        assert AddItem(t, path, x).children == t.children;
      }
    } else {
      var sub := if path[0] in t.children then t.children[path[0]] else Empty();
      var r := AddItem(t, path, x);
      if q == [] {
      } else if q[0] == path[0] {
        AddItemAt(sub, path[1..], x, q[1..]);
        assert At(r, q) == At(AddItem(sub, path[1..], x), q[1..]);
        if path[0] !in t.children {
          EmptyAt<T>(q[1..]);
        }
        assert q == path <==> q[1..] == path[1..];
      } else {
        assert q[0] in r.children <==> q[0] in t.children;
        if q[0] in t.children {
          assert r.children[q[0]] == t.children[q[0]];
        }
      }
    }
  }

  /** The default tree holds nothing anywhere. */
  lemma {:induction false} EmptyAt<T>(q: seq<string>)
    ensures At(Empty<T>(), q) == []
  {
  }

  /** `from_iter` places every item at the node addressed by its path, keeping the input
      order among the items of one node. */
  lemma {:induction false} CollectAt<T>(xs: seq<T>, pathOf: T -> seq<string>, q: seq<string>)
    ensures At(Collect(xs, pathOf), q) == Placed(xs, pathOf, q)
  {
    if xs == [] {
      EmptyAt<T>(q);
    } else {
      var init := xs[..|xs| - 1];
      CollectAt(init, pathOf, q);
      AddItemAt(Collect(init, pathOf), pathOf(xs[|xs| - 1]), xs[|xs| - 1], q);
    }
  }

  /** When no item has an empty path, the root of the collected tree has no items: every item
      lives inside some module. */
  lemma NoRootItems<T>(xs: seq<T>, pathOf: T -> seq<string>)
    requires forall i :: 0 <= i < |xs| ==> pathOf(xs[i]) != []
    ensures Collect(xs, pathOf).items == []
  {
    CollectAt(xs, pathOf, []);
    PlacedNone(xs, pathOf, []);
  }

  /** Nothing is placed at a path no item has. */
  lemma {:induction false} PlacedNone<T>(xs: seq<T>, pathOf: T -> seq<string>, q: seq<string>)
    requires forall i :: 0 <= i < |xs| ==> pathOf(xs[i]) != q
    ensures Placed(xs, pathOf, q) == []
  {
    if xs != [] {
      PlacedNone(xs[..|xs| - 1], pathOf, q);
    }
  }

  // ---------------------------------------------------------------------------------------
  // Item count

  /** Total number of items in a tree. */
  ghost function Count<T>(t: Tree<T>): nat
    decreases t, 1
  {
    |t.items| + CountChildren(t, t.children.Keys)
  }

  /** Total number of items in the children of `t` named in `keys`. */
  ghost function CountChildren<T>(t: Tree<T>, keys: set<string>): nat
    requires keys <= t.children.Keys
    decreases t, 0, |keys|
  {
    if keys == {} then 0
    else
      var k :| k in keys;
      Count(t.children[k]) + CountChildren(t, keys - {k})
  }

  /** The children sum does not depend on which key is taken out first. */
  lemma {:induction false} CountChildrenRemove<T>(t: Tree<T>, keys: set<string>, k: string)
    requires keys <= t.children.Keys && k in keys
    ensures CountChildren(t, keys) == Count(t.children[k]) + CountChildren(t, keys - {k})
    decreases |keys|
  {
    var j :| j in keys && CountChildren(t, keys) == Count(t.children[j]) + CountChildren(t, keys - {j});
    if j != k {
      CountChildrenRemove(t, keys - {j}, k);
      CountChildrenRemove(t, keys - {k}, j);
      assert keys - {j} - {k} == keys - {k} - {j};
    }
  }

  /** The children sum only looks at the children named in `keys`. */
  lemma {:induction false} CountChildrenSame<T>(t: Tree<T>, u: Tree<T>, keys: set<string>)
    requires keys <= t.children.Keys && keys <= u.children.Keys
    requires forall k :: k in keys ==> t.children[k] == u.children[k]
    ensures CountChildren(t, keys) == CountChildren(u, keys)
    decreases |keys|
  {
    if keys != {} {
      var k :| k in keys && CountChildren(t, keys) == Count(t.children[k]) + CountChildren(t, keys - {k});
      CountChildrenRemove(u, keys, k);
      CountChildrenSame(t, u, keys - {k});
    }
  }

  /** Adding one item adds one to the total. */
  lemma {:induction false} AddItemCount<T>(t: Tree<T>, path: seq<string>, x: T)
    ensures Count(AddItem(t, path, x)) == Count(t) + 1
    decreases |path|
  {
    var r := AddItem(t, path, x);
    if path == [] {
      CountChildrenSame(r, t, t.children.Keys);
    } else {
      var k := path[0];
      var sub := if k in t.children then t.children[k] else Empty();
      AddItemCount(sub, path[1..], x);
      var others := t.children.Keys - {k};
      assert r.children.Keys == others + {k};
      CountChildrenRemove(r, r.children.Keys, k);
      assert r.children.Keys - {k} == others;
      CountChildrenSame(r, t, others);
      if k in t.children {
        CountChildrenRemove(t, t.children.Keys, k);
        assert t.children.Keys - {k} == others;
      } else {
        assert t.children.Keys == others;
        assert Count(sub) == 0 by {
          assert sub.children.Keys == {};
        }
      }
    }
  }

  /** `from_iter` loses and duplicates nothing: the tree holds exactly as many items as the
      input. */
  lemma {:induction false} CollectCount<T>(xs: seq<T>, pathOf: T -> seq<string>)
    ensures Count(Collect(xs, pathOf)) == |xs|
  {
    if xs == [] {
      assert Count(Empty<T>()) == 0 by {
        assert Empty<T>().children.Keys == {};
      }
    } else {
      CollectCount(xs[..|xs| - 1], pathOf);
      AddItemCount(Collect(xs[..|xs| - 1], pathOf), pathOf(xs[|xs| - 1]), xs[|xs| - 1]);
    }
  }

  // ---------------------------------------------------------------------------------------
  // Rendering

  /** The order of Rust's `String`, which iterates a `BTreeMap<String, _>`: lexicographic by
      character, a proper prefix first. */
  predicate StrLess(a: string, b: string)
    decreases |a|
  {
    |b| > 0 && (|a| == 0 || a[0] < b[0] || (a[0] == b[0] && StrLess(a[1..], b[1..])))
  }

  lemma {:induction false} StrLessIrreflexive(a: string)
    ensures !StrLess(a, a)
    decreases |a|
  {
    if |a| > 0 {
      StrLessIrreflexive(a[1..]);
    }
  }

  lemma {:induction false} StrLessTransitive(a: string, b: string, c: string)
    requires StrLess(a, b) && StrLess(b, c)
    ensures StrLess(a, c)
    decreases |a|
  {
    if |a| > 0 && a[0] == b[0] && b[0] == c[0] {
      StrLessTransitive(a[1..], b[1..], c[1..]);
    }
  }

  lemma {:induction false} StrLessTotal(a: string, b: string)
    requires a != b
    ensures StrLess(a, b) || StrLess(b, a)
    decreases |a|
  {
    if |a| > 0 && |b| > 0 && a[0] == b[0] {
      StrLessTotal(a[1..], b[1..]);
    }
  }

  /** Every finite non-empty set of strings has a least element. */
  lemma {:induction false} LeastExists(s: set<string>)
    requires s != {}
    ensures exists k :: k in s && forall j :: j in s && j != k ==> StrLess(k, j)
    decreases |s|
  {
    var x :| x in s;
    if s == {x} {
      assert forall j :: j in s && j != x ==> StrLess(x, j);
    } else {
      LeastExists(s - {x});
      var m :| m in s - {x} && forall j :: j in s - {x} && j != m ==> StrLess(m, j);
      StrLessTotal(m, x);
      if StrLess(x, m) {
        forall j | j in s && j != x ensures StrLess(x, j) {
          if j != m {
            StrLessTransitive(x, m, j);
          }
        }
      } else {
        assert forall j :: j in s && j != m ==> StrLess(m, j);
      }
    }
  }

  /** The keys of a `BTreeMap` in iteration order. */
  ghost function SortedKeys(s: set<string>): (r: seq<string>)
    ensures |r| == |s| && forall k :: k in r <==> k in s
    ensures forall i, j :: 0 <= i < j < |r| ==> StrLess(r[i], r[j])
    decreases |s|
  {
    if s == {} then []
    else
      LeastExists(s);
      var k :| k in s && forall j :: j in s && j != k ==> StrLess(k, j);
      var rest := SortedKeys(s - {k});
      assert forall i :: 0 <= i < |rest| ==> StrLess(k, rest[i]) by {
        forall i | 0 <= i < |rest| ensures StrLess(k, rest[i]) {
          assert rest[i] in s - {k};
        }
      }
      [k] + rest
  }

  /** `Display for ModuleTree`, line by line: each item (rendered by `text`) in insertion
      order, then each submodule in key order, wrapped in `pub mod name {` and `}`. */
  ghost function Render<T>(t: Tree<T>, text: T -> string): seq<string>
    decreases t, 1
  {
    ItemLines(t.items, text) + RenderChildren(t, SortedKeys(t.children.Keys), text)
  }

  function ItemLines<T>(xs: seq<T>, text: T -> string): (r: seq<string>)
    ensures |r| == |xs| && forall i :: 0 <= i < |xs| ==> r[i] == text(xs[i])
  {
    seq(|xs|, i requires 0 <= i < |xs| => text(xs[i]))
  }

  /** The opening line of a submodule block. */
  function ModuleHeader(name: string): string
  {
    "pub mod " + name + " {"
  }

  ghost function RenderChildren<T>(t: Tree<T>, keys: seq<string>, text: T -> string)
    : seq<string>
    requires forall i :: 0 <= i < |keys| ==> keys[i] in t.children
    decreases t, 0, |keys|
  {
    if keys == [] then []
    else
      [ModuleHeader(keys[0])] + Render(t.children[keys[0]], text) + ["}"]
      + RenderChildren(t, keys[1..], text)
  }

  /** A rendered tree starts with its own items, in order; with any submodules, the next line
      opens the submodule whose name comes first. */
  lemma RenderOrder<T>(t: Tree<T>, text: T -> string)
    ensures var r := Render(t, text);
            && |r| >= |t.items|
            && r[..|t.items|] == ItemLines(t.items, text)
            && (t.children != map[] ==>
                  |r| > |t.items|
                  && exists k :: k in t.children && r[|t.items|] == ModuleHeader(k)
                                 && forall j :: j in t.children && j != k ==> StrLess(k, j))
  {
    var keys := SortedKeys(t.children.Keys);
    var r := Render(t, text);
    assert r == ItemLines(t.items, text) + RenderChildren(t, keys, text);
    if t.children != map[] {
      var k := keys[0];
      assert k in t.children.Keys;
      assert r[|t.items|] == ModuleHeader(k);
      forall j | j in t.children && j != k ensures StrLess(k, j) {
        var i :| 0 <= i < |keys| && keys[i] == j;
        assert i != 0;
      }
    }
  }

  /** The block a submodule renders to: `pub mod name {`, the submodule's lines, then `}`. */
  ghost function Block<T>(t: Tree<T>, k: string, text: T -> string): seq<string>
    requires k in t.children
  {
    [ModuleHeader(k)] + Render(t.children[k], text) + ["}"]
  }

  /** The blocks of the submodules named by `keys`, in that order. */
  ghost function Blocks<T>(t: Tree<T>, keys: seq<string>, text: T -> string): (r: seq<seq<string>>)
    requires forall j :: 0 <= j < |keys| ==> keys[j] in t.children
    ensures |r| == |keys| && forall j :: 0 <= j < |keys| ==> r[j] == Block(t, keys[j], text)
  {
    seq(|keys|, j requires 0 <= j < |keys| => Block(t, keys[j], text))
  }

  /** Lines of several blocks, one block after the other. */
  function Concat<X>(bs: seq<seq<X>>): seq<X>
  {
    if bs == [] then [] else bs[0] + Concat(bs[1..])
  }

  /** Where block `i` starts in `Concat(bs)`. */
  function Start<X>(bs: seq<seq<X>>, i: nat): nat
    requires i <= |bs|
  {
    if i == 0 then 0 else |bs[0]| + Start(bs[1..], i - 1)
  }

  /** Block `i` sits, unchanged, between `Start(bs, i)` and `Start(bs, i + 1)`. */
  lemma {:induction false} ConcatAt<X>(bs: seq<seq<X>>, i: nat)
    requires i < |bs|
    ensures Start(bs, i + 1) == Start(bs, i) + |bs[i]|
    ensures Start(bs, i + 1) <= |Concat(bs)|
    ensures Concat(bs)[Start(bs, i)..Start(bs, i + 1)] == bs[i]
  {
    var rest := Concat(bs[1..]);
    assert Concat(bs) == bs[0] + rest;
    if i > 0 {
      ConcatAt(bs[1..], i - 1);
      var lo, hi := Start(bs[1..], i - 1), Start(bs[1..], i);
      assert (bs[0] + rest)[|bs[0]| + lo..|bs[0]| + hi] == rest[lo..hi];
    }
  }

  /** Nothing follows the last block. */
  lemma {:induction false} ConcatLength<X>(bs: seq<seq<X>>)
    ensures |Concat(bs)| == Start(bs, |bs|)
  {
    if bs != [] {
      ConcatLength(bs[1..]);
    }
  }

  /** The rendered children are exactly their blocks, concatenated in the order of `keys`. */
  lemma {:induction false} RenderChildrenConcat<T>(t: Tree<T>, keys: seq<string>, text: T -> string)
    requires forall j :: 0 <= j < |keys| ==> keys[j] in t.children
    ensures RenderChildren(t, keys, text) == Concat(Blocks(t, keys, text))
  {
    if keys != [] {
      RenderChildrenConcat(t, keys[1..], text);
      assert Blocks(t, keys, text)[1..] == Blocks(t, keys[1..], text);
    }
  }

  /** The whole rendering of a node: its items, then for every submodule, in ascending key
      order, one block `pub mod name {`, the submodule's own rendering and `}`, and nothing
      else (`ConcatAt` and `ConcatLength` locate each block). */
  lemma RenderBlocks<T>(t: Tree<T>, text: T -> string)
    ensures Render(t, text)
            == ItemLines(t.items, text) + Concat(Blocks(t, SortedKeys(t.children.Keys), text))
  {
    RenderChildrenConcat(t, SortedKeys(t.children.Keys), text);
  }
}
