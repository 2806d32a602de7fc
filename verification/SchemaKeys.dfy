/** Keys of an identity schema in document order: the recursive path builder, whose calls share one growing slice of
    parents, and what can be read back from the keys it builds. */
module SchemaKeys {
  import opened Wrappers
  import opened Text

  /** A JSON schema as far as `computeKeyPositions` looks at it: an object with its properties in document order, or
      anything else. */
  datatype Schema = Object(props: seq<(string, Schema)>) | Other

  /** `strings.ReplaceAll(name, ".", "\\.")`. */
  function Escape(name: string): string {
    if name == "" then ""
    else (if name[0] == '.' then "\\." else [name[0]]) + Escape(name[1..])
  }

  function EscapeAll(names: seq<string>): seq<string> {
    if names == [] then [] else [Escape(names[0])] + EscapeAll(names[1..])
  }

  /** The key of a path of property names. */
  function KeyOf(names: seq<string>): string {
    Join(EscapeAll(names), '.')
  }

  // The leaves of a schema, independent of the traversal

  /** The node under a position, a path of child indices. */
  function NodeAt(s: Schema, at: seq<nat>): Option<Schema> {
    if at == [] then Some(s)
    else if s.Object? && at[0] < |s.props| then NodeAt(s.props[at[0]].1, at[1..])
    else None
  }

  predicate IsLeaf(s: Schema, at: seq<nat>) {
    NodeAt(s, at) == Some(Other)
  }

  /** The property names along a position. */
  function NamesAt(s: Schema, at: seq<nat>): seq<string>
    requires NodeAt(s, at).Some?
  {
    if at == [] then []
    else [s.props[at[0]].0] + NamesAt(s.props[at[0]].1, at[1..])
  }

  /** Document order of positions. */
  predicate Before(a: seq<nat>, b: seq<nat>) {
    a != [] && b != [] && (a[0] < b[0] || (a[0] == b[0] && Before(a[1..], b[1..])))
  }

  // The traversal

  function Under(i: nat, ps: seq<seq<nat>>): seq<seq<nat>> {
    seq(|ps|, n requires 0 <= n < |ps| => [i] + ps[n])
  }

  /** The positions at which the traversal reaches a leaf, in the order it reaches them. */
  function Leaves(s: Schema): seq<seq<nat>>
    decreases s, 1, 0
  {
    match s
    case Other => [[]]
    case Object(props) => PropLeaves(s, 0)
  }

  function PropLeaves(s: Schema, i: nat): seq<seq<nat>>
    requires s.Object? && i <= |s.props|
    decreases s, 0, |s.props| - i
  {
    if i == |s.props| then [] else Under(i, Leaves(s.props[i].1)) + PropLeaves(s, i + 1)
  }

  /** The keys the traversal appends, below the given escaped parents. */
  function Keys(s: Schema, parents: seq<string>): seq<string>
    decreases s, 1, 0
  {
    match s
    case Other => [Join(parents, '.')]
    case Object(props) => PropKeys(s, 0, parents)
  }

  function PropKeys(s: Schema, i: nat, parents: seq<string>): seq<string>
    requires s.Object? && i <= |s.props|
    decreases s, 0, |s.props| - i
  {
    if i == |s.props| then []
    else Keys(s.props[i].1, parents + [Escape(s.props[i].0)]) + PropKeys(s, i + 1, parents)
  }

  lemma {:induction false} LeavesExact(s: Schema, at: seq<nat>)
    ensures at in Leaves(s) <==> IsLeaf(s, at)
    decreases s, 1, 0
  {
    if s.Object? {
      PropLeavesExact(s, 0, at);
    }
  }

  lemma {:induction false} PropLeavesExact(s: Schema, i: nat, at: seq<nat>)
    requires s.Object? && i <= |s.props|
    ensures at in PropLeaves(s, i) <==> IsLeaf(s, at) && at != [] && i <= at[0]
    decreases s, 0, |s.props| - i
  {
    if i < |s.props| {
      var ps := Leaves(s.props[i].1);
      PropLeavesExact(s, i + 1, at);
      if at != [] {
        LeavesExact(s.props[i].1, at[1..]);
        UnderExact(i, ps, at);
      }
    }
  }

  lemma UnderExact(i: nat, ps: seq<seq<nat>>, at: seq<nat>)
    requires at != []
    ensures at in Under(i, ps) <==> at[0] == i && at[1..] in ps
  {
    if at in Under(i, ps) {
      var n :| 0 <= n < |ps| && Under(i, ps)[n] == at;
      assert at == [i] + ps[n] && at[1..] == ps[n];
    }
    if at[0] == i && at[1..] in ps {
      var n :| 0 <= n < |ps| && ps[n] == at[1..];
      assert Under(i, ps)[n] == [i] + ps[n] == at;
    }
  }

  predicate Ordered(ps: seq<seq<nat>>) {
    forall m, n :: 0 <= m < n < |ps| ==> Before(ps[m], ps[n])
  }

  lemma {:induction false} LeavesOrdered(s: Schema)
    ensures Ordered(Leaves(s))
    decreases s, 1, 0
  {
    if s.Object? {
      PropLeavesOrdered(s, 0);
    }
  }

  lemma {:induction false} PropLeavesOrdered(s: Schema, i: nat)
    requires s.Object? && i <= |s.props|
    ensures Ordered(PropLeaves(s, i))
    decreases s, 0, |s.props| - i
  {
    if i < |s.props| {
      var here, rest := Under(i, Leaves(s.props[i].1)), PropLeaves(s, i + 1);
      LeavesOrdered(s.props[i].1);
      PropLeavesOrdered(s, i + 1);
      assert Ordered(here) by {
        var ps := Leaves(s.props[i].1);
        forall m, n | 0 <= m < n < |here| ensures Before(here[m], here[n]) {
          assert here[m][1..] == ps[m] && here[n][1..] == ps[n];
        }
      }
      forall n | 0 <= n < |rest| ensures rest[n] != [] && i < rest[n][0] {
        PropLeavesExact(s, i + 1, rest[n]);
      }
    }
  }

  /** The n-th key is the joined, escaped names along the n-th leaf position. */
  lemma {:induction false} KeysFollowLeaves(s: Schema, parents: seq<string>, n: nat)
    ensures |Keys(s, parents)| == |Leaves(s)|
    ensures n < |Leaves(s)| ==>
              && NodeAt(s, Leaves(s)[n]).Some?
              && Keys(s, parents)[n] == Join(parents + EscapeAll(NamesAt(s, Leaves(s)[n])), '.')
    decreases s, 1, 0
  {
    if s.Object? {
      PropKeysFollowLeaves(s, 0, parents, n);
    } else {
      assert parents + [] == parents;
    }
  }

  /** One step down: the names along a position below the i-th property. */
  lemma NamesBelow(s: Schema, i: nat, at: seq<nat>, parents: seq<string>)
    requires s.Object? && i < |s.props| && NodeAt(s.props[i].1, at).Some?
    ensures NodeAt(s, [i] + at) == NodeAt(s.props[i].1, at)
    ensures parents + EscapeAll(NamesAt(s, [i] + at))
         == parents + [Escape(s.props[i].0)] + EscapeAll(NamesAt(s.props[i].1, at))
  {
    assert ([i] + at)[1..] == at;
    assert NamesAt(s, [i] + at)[1..] == NamesAt(s.props[i].1, at);
  }

  lemma {:induction false} PropKeysFollowLeaves(s: Schema, i: nat, parents: seq<string>, n: nat)
    requires s.Object? && i <= |s.props|
    ensures |PropKeys(s, i, parents)| == |PropLeaves(s, i)|
    ensures n < |PropLeaves(s, i)| ==>
              && NodeAt(s, PropLeaves(s, i)[n]).Some?
              && PropKeys(s, i, parents)[n] == Join(parents + EscapeAll(NamesAt(s, PropLeaves(s, i)[n])), '.')
    decreases s, 0, |s.props| - i
  {
    if i < |s.props| {
      var child, here := s.props[i].1, |Leaves(s.props[i].1)|;
      KeysFollowLeaves(child, parents + [Escape(s.props[i].0)], n);
      if n < here {
        PropKeysFollowLeaves(s, i + 1, parents, 0);
        assert PropLeaves(s, i)[n] == [i] + Leaves(child)[n];
        NamesBelow(s, i, Leaves(child)[n], parents);
      } else {
        PropKeysFollowLeaves(s, i + 1, parents, n - here);
      }
    }
  }

  /** From the root, the keys are those of the leaves in document order, each leaf once. */
  lemma KeysInOrder(s: Schema, n: nat)
    requires n < |Leaves(s)|
    ensures |Keys(s, [])| == |Leaves(s)|
    ensures IsLeaf(s, Leaves(s)[n]) && Keys(s, [])[n] == KeyOf(NamesAt(s, Leaves(s)[n]))
    ensures forall m :: 0 <= m < n ==> Before(Leaves(s)[m], Leaves(s)[n])
  {
    KeysFollowLeaves(s, [], n);
    LeavesExact(s, Leaves(s)[n]);
    LeavesOrdered(s);
    var names := EscapeAll(NamesAt(s, Leaves(s)[n]));
    assert [] + names == names;
  }

  // The recursive builder with Go's slices

  /** A Go slice of strings: the first `len` cells of a backing array, which other slices may share. */
  datatype Slice = Slice(cells: array<string>, len: nat)

  ghost predicate InBounds(p: Slice) {
    p.len <= p.cells.Length
  }

  /** `append(p, x)`: writes into the shared array while there is room, otherwise moves to a new one. */
  method Append(p: Slice, x: string, grow: nat) returns (r: Slice)
    requires InBounds(p)
    modifies p.cells
    ensures InBounds(r) && r.len == p.len + 1
    ensures r.cells == p.cells || fresh(r.cells)
    ensures r.cells[..r.len] == old(p.cells[..p.len]) + [x]
    ensures p.cells[..p.len] == old(p.cells[..p.len])
  {
    if p.len < p.cells.Length {
      p.cells[p.len] := x;
      r := Slice(p.cells, p.len + 1);
    } else {
      var cells := new string[p.len + 1 + grow](i => "");
      for i := 0 to p.len
        invariant cells[..i] == p.cells[..i] && p.cells[..] == old(p.cells[..])
      {
        cells[i] := p.cells[i];
      }
      cells[p.len] := x;
      r := Slice(cells, p.len + 1);
    }
  }

  /** The list of keys under construction, `*dest`. */
  class Keylist {
    var keys: seq<string>

    constructor ()
      ensures keys == []
    {
      keys := [];
    }
  }

  /** `computeKeyPositions`. Although all children of a node append to the same slice of parents, which can overwrite
      the cell behind it in place, every key comes out as if each child had a list of its own. */
  method ComputeKeyPositions(s: Schema, dest: Keylist, parents: Slice, grow: nat)
    requires InBounds(parents)
    modifies dest, parents.cells
    ensures dest.keys == old(dest.keys) + Keys(s, old(parents.cells[..parents.len]))
    ensures parents.cells[..parents.len] == old(parents.cells[..parents.len])
    decreases s
  {
    match s
    case Object(props) =>
      ghost var path := parents.cells[..parents.len];
      for i := 0 to |props|
        invariant parents.cells[..parents.len] == path
        invariant old(dest.keys) + Keys(s, path) == dest.keys + PropKeys(s, i, path)
      {
        var below := Append(parents, Escape(props[i].0), grow);
        assert below.cells[..below.len] == path + [Escape(props[i].0)];
        ComputeKeyPositions(props[i].1, dest, below, grow);
        assert parents.cells[..parents.len] == path by {
          if below.cells == parents.cells {
            assert below.cells[..below.len][..parents.len] == parents.cells[..parents.len];
          }
        }
      }
    case Other =>
      dest.keys := dest.keys + [Join(parents.cells[..parents.len], '.')];
  }

  // Reading a key back

  /** The names of a key: cut at every dot that no backslash precedes, and drop the backslash before every other dot. */
  function Parse(key: string): (names: seq<string>)
    ensures names != []
    decreases |key|
  {
    if key == "" then [""]
    else if key[0] == '.' then [""] + Parse(key[1..])
    else if key[0] == '\\' && |key| > 1 && key[1] == '.' then Prepend('.', Parse(key[2..]))
    else Prepend(key[0], Parse(key[1..]))
  }

  function Prepend(c: char, names: seq<string>): (r: seq<string>)
    requires names != []
    ensures |r| == |names|
  {
    [[c] + names[0]] + names[1..]
  }

  predicate EndsWithBackslash(name: string) {
    name != "" && name[|name| - 1] == '\\'
  }

  lemma {:induction false} ParseLast(name: string)
    ensures Parse(Escape(name)) == [name]
  {
    if name != "" {
      ParseLast(name[1..]);
      var rest := Escape(name[1..]);
      var key := Escape(name);
      assert name == [name[0]] + name[1..];
      if name[0] == '.' {
        assert key[2..] == rest;
      } else {
        assert key[1..] == rest;
        EscapeStart(name[1..]);
      }
    }
  }

  /** An escaped name never starts with a dot. */
  lemma EscapeStart(name: string)
    ensures Escape(name) == "" || Escape(name)[0] != '.'
    ensures Escape(name) == "" <==> name == ""
  {
  }

  /** What a name, a dot and a rest that reads as `names` read as: the dot separates, unless the name ends with a
      backslash. Then the dot becomes part of a longer first name. */
  function Behind(name: string, names: seq<string>): seq<string>
    requires names != []
  {
    if EndsWithBackslash(name) then [name[..|name| - 1] + "." + names[0]] + names[1..] else [name] + names
  }

  lemma PrependBehind(c: char, name: string, names: seq<string>)
    requires names != [] && (name != "" || c != '\\')
    ensures Prepend(c, Behind(name, names)) == Behind([c] + name, names)
  {
    if name != "" {
      var n := |name| - 1;
      assert ([c] + name)[..n + 1] == [c] + name[..n];
      assert [c] + (name[..n] + "." + names[0]) == ([c] + name[..n]) + "." + names[0];
    }
  }

  lemma ParseBackslash(tail: string)
    ensures Parse(Escape("\\") + "." + tail) == Behind("\\", Parse(tail))
  {
    assert "\\"[1..] == "";
    assert Escape("\\") == "\\";
    var key := "\\" + "." + tail;
    assert key[0] == '\\' && key[1] == '.' && key[2..] == tail;
    assert Parse(key) == Prepend('.', Parse(tail));
    assert "\\"[..0] + "." + Parse(tail)[0] == ['.'] + Parse(tail)[0];
  }

  /** One escaped character reads as itself. */
  lemma ParseCharacter(c: char, rest: string)
    requires c == '\\' ==> rest == "" || rest[0] != '.'
    ensures Parse((if c == '.' then "\\." else [c]) + rest) == Prepend(c, Parse(rest))
  {
    if c == '.' {
      var key := "\\." + rest;
      assert key[0] == '\\' && key[1] == '.' && key[2..] == rest;
    } else {
      var key := [c] + rest;
      assert key[0] == c && key[1..] == rest;
    }
  }

  lemma EscapeHead(name: string, tail: string)
    requires name != ""
    ensures Escape(name) + "." + tail == (if name[0] == '.' then "\\." else [name[0]]) + (Escape(name[1..]) + "." + tail)
  {
    var lead, rest := if name[0] == '.' then "\\." else [name[0]], Escape(name[1..]);
    assert (lead + rest) + "." + tail == lead + (rest + "." + tail);
  }

  lemma {:induction false} ParseName(name: string, tail: string)
    ensures Parse(Escape(name) + "." + tail) == Behind(name, Parse(tail))
    decreases |name|
  {
    if name == "" {
      assert (Escape(name) + "." + tail)[1..] == tail;
    } else if name == "\\" {
      ParseBackslash(tail);
    } else {
      var c, rest := name[0], Escape(name[1..]) + "." + tail;
      ParseName(name[1..], tail);
      EscapeStart(name[1..]);
      assert name == [c] + name[1..];
      assert c == '\\' ==> rest[0] != '.';
      ParseCharacter(c, rest);
      PrependBehind(c, name[1..], Parse(tail));
      EscapeHead(name, tail);
    }
  }

  lemma KeyOfMore(names: seq<string>)
    requires |names| > 1
    ensures KeyOf(names) == Escape(names[0]) + "." + KeyOf(names[1..])
  {
    assert EscapeAll(names)[1..] == EscapeAll(names[1..]);
  }

  lemma BehindReads(name: string, rest: seq<string>, read: seq<string>)
    requires read != [] && |read| <= |rest| && (read == rest <==> |read| == |rest|)
    ensures var all, names := Behind(name, read), [name] + rest;
            && |all| <= |names|
            && (all == names <==> !EndsWithBackslash(name) && read == rest)
            && (all == names <==> |all| == |names|)
  {
  }

  /** The names along a path come back from its key exactly when no name but the last ends with a backslash. Otherwise
      the key reads as a shorter path. */
  lemma {:induction false} ParseKey(names: seq<string>)
    requires names != []
    ensures |Parse(KeyOf(names))| <= |names|
    ensures Parse(KeyOf(names)) == names <==> forall i :: 0 <= i < |names| - 1 ==> !EndsWithBackslash(names[i])
    ensures Parse(KeyOf(names)) == names <==> |Parse(KeyOf(names))| == |names|
    decreases |names|
  {
    if |names| == 1 {
      ParseLast(names[0]);
      assert EscapeAll(names) == [Escape(names[0])];
      assert names == [names[0]];
    } else {
      var rest := names[1..];
      ParseKey(rest);
      KeyOfMore(names);
      ParseName(names[0], KeyOf(rest));
      BehindReads(names[0], rest, Parse(KeyOf(rest)));
      assert names == [names[0]] + rest;
      assert forall i :: 1 <= i < |names| ==> names[i] == rest[i - 1];
    }
  }

  // Distinct leaves have distinct keys

  ghost predicate ReadableNames(s: Schema)
    decreases s
  {
    s.Object? ==>
      && (forall i, j :: 0 <= i < j < |s.props| ==> s.props[i].0 != s.props[j].0)
      && (forall i :: 0 <= i < |s.props| ==>
            (s.props[i].1.Object? ==> !EndsWithBackslash(s.props[i].0)) && ReadableNames(s.props[i].1))
  }

  lemma {:induction false} DistinctPaths(s: Schema, a: seq<nat>, b: seq<nat>)
    requires ReadableNames(s) && IsLeaf(s, a) && IsLeaf(s, b) && a != b
    ensures NamesAt(s, a) != NamesAt(s, b)
    ensures NamesAt(s, a) != [] && NamesAt(s, b) != []
    decreases s
  {
    assert a != [] && b != [];
    if a[0] == b[0] {
      assert a == [a[0]] + a[1..] && b == [b[0]] + b[1..];
      DistinctPaths(s.props[a[0]].1, a[1..], b[1..]);
      assert NamesAt(s, a)[1..] == NamesAt(s.props[a[0]].1, a[1..]);
      assert NamesAt(s, b)[1..] == NamesAt(s.props[a[0]].1, b[1..]);
    } else {
      assert NamesAt(s, a)[0] != NamesAt(s, b)[0];
    }
  }

  lemma {:induction false} NamesReadable(s: Schema, at: seq<nat>, i: nat)
    requires ReadableNames(s) && NodeAt(s, at).Some? && i < |NamesAt(s, at)| - 1
    ensures !EndsWithBackslash(NamesAt(s, at)[i])
    decreases s
  {
    if i > 0 {
      NamesReadable(s.props[at[0]].1, at[1..], i - 1);
    }
  }

  /** In a schema whose objects have distinct property names, none ending with a backslash if it holds an object itself,
      no two leaves get the same key, and every key reads back as the path it was built from. */
  lemma DistinctKeys(s: Schema, a: seq<nat>, b: seq<nat>)
    requires ReadableNames(s) && IsLeaf(s, a) && IsLeaf(s, b) && a != b
    ensures KeyOf(NamesAt(s, a)) != KeyOf(NamesAt(s, b))
    ensures Parse(KeyOf(NamesAt(s, a))) == NamesAt(s, a)
  {
    DistinctPaths(s, a, b);
    ReadsBack(s, a);
    ReadsBack(s, b);
  }

  lemma ReadsBack(s: Schema, at: seq<nat>)
    requires ReadableNames(s) && NodeAt(s, at).Some? && NamesAt(s, at) != []
    ensures Parse(KeyOf(NamesAt(s, at))) == NamesAt(s, at)
  {
    forall i | 0 <= i < |NamesAt(s, at)| - 1 ensures !EndsWithBackslash(NamesAt(s, at)[i]) {
      NamesReadable(s, at, i);
    }
    ParseKey(NamesAt(s, at));
  }

  /** The collision behind the condition: the paths a\, b and a.b share their key. */
  lemma BackslashCollides()
    ensures KeyOf(["a\\", "b"]) == KeyOf(["a.b"]) == "a\\.b"
  {
    assert Escape("a\\") == "a\\" by { assert "a\\"[1..] == "\\" && "\\"[1..] == ""; }
    assert Escape("b") == "b" by { assert "b"[1..] == ""; }
    assert Escape("a.b") == "a\\.b" by {
      assert "a.b"[1..] == ".b" && ".b"[1..] == "b";
      assert Escape(".b") == "\\." + Escape("b");
    }
    assert EscapeAll(["a.b"]) == ["a\\.b"];
    assert ["a\\", "b"][1..] == ["b"];
    assert EscapeAll(["b"]) == ["b"];
    assert EscapeAll(["a\\", "b"]) == ["a\\", "b"];
    assert Join(["b"], '.') == "b";
  }
}
