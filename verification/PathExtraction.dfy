/** Extracting values from JSON documents by dotted paths (pkg/crawler/attribute_indexing.go).
    Where the Go code would stop with a runtime panic the model answers None. */
module PathExtraction {
  import opened Wrappers
  import opened Text
  import opened Json

  // -------------------------------------------------------------- the data

  datatype PathToken = PathToken(key: string, isArray: bool, index: Option<int>, wildcard: bool, prefix: string)

  const EMPTY_TOKEN := PathToken("", false, None, false, "")

  /** A value on the way, the path leading to it and the path of what contains it. */
  datatype Node = Node(value: Json, path: string, context: string)

  datatype ExtractedValue = ExtractedValue(value: Json, sourcePath: string, contextPath: string)

  type Nodes = Option<seq<Node>>

  // ----------------------------------------------------------- path strings

  /** The position of the first '[', or the length. */
  function Bracket(p: string): (i: nat)
    ensures i <= |p|
    ensures forall k | 0 <= k < i :: p[k] != '['
    ensures i < |p| ==> p[i] == '['
  {
    if p == [] || p[0] == '[' then 0 else 1 + Bracket(p[1..])
  }

  function WithIndex(t: PathToken, key: string, index: Option<int>): PathToken {
    if index.None? then t else t.(key := key, index := index, isArray := true)
  }

  /** The text between the first '[' and the last byte; half of a character is no number. */
  function BracketIndex(p: string): Option<int>
    requires Bracket(p) < |p| - 1
  {
    if p[|p| - 1] >= '\U{0080}' then None else Atoi(p[Bracket(p) + 1..|p| - 1])
  }

  /** One trimmed segment of a path; a segment whose first '[' ends it panics. */
  function ParseSegment(p: string): Option<PathToken> {
    if p == "[*]" then Some(EMPTY_TOKEN.(isArray := true))
    else if HasPrefix(p, "[") && HasSuffix(p, "]") then
      Some(WithIndex(EMPTY_TOKEN, "", Atoi(TrimSpace(TrimSuffix(TrimPrefix(p, "["), "]")))))
    else if HasSuffix(p, "[*]") then Some(EMPTY_TOKEN.(key := TrimSpace(TrimSuffix(p, "[*]")), isArray := true))
    else if Bracket(p) < |p| then
      if Bracket(p) == |p| - 1 then None else Some(WithIndex(EMPTY_TOKEN, p[..Bracket(p)], BracketIndex(p)))
    else if p == "*" then Some(EMPTY_TOKEN.(wildcard := true))
    else if HasSuffix(p, "*") then Some(EMPTY_TOKEN.(prefix := TrimSuffix(p, "*")))
    else Some(EMPTY_TOKEN.(key := p))
  }

  function ParseSegments(parts: seq<string>): Option<seq<PathToken>> {
    if parts == [] then Some([])
    else
      var n := |parts| - 1;
      var before, last := ParseSegments(parts[..n]), ParseSegment(TrimSpace(parts[n]));
      if before.None? || last.None? then None else Some(before.value + [last.value])
  }

  method ParsePath(path: string) returns (tokens: Option<seq<PathToken>>)
    ensures tokens == ParseSegments(Split(path, '.'))
  {
    hide ParseSegment, TrimSpace;
    var parts := Split(path, '.');
    var parsed: seq<PathToken> := [];
    for n := 0 to |parts|
      invariant ParseSegments(parts[..n]) == Some(parsed)
    {
      var token := ParseSegment(TrimSpace(parts[n]));
      assert parts[..n + 1][..n] == parts[..n];
      if token.None? {
        SegmentPanicSpreads(parts, n + 1);
        return None;
      }
      parsed := parsed + [token.value];
    }
    assert parts[..|parts|] == parts;
    tokens := Some(parsed);
  }

  lemma {:induction false} SegmentPanicSpreads(parts: seq<string>, n: nat)
    requires n <= |parts| && ParseSegments(parts[..n]) == None
    ensures ParseSegments(parts) == None
    decreases |parts| - n
  {
    if n == |parts| {
      assert parts[..n] == parts;
    } else {
      assert parts[..n + 1][..n] == parts[..n];
      SegmentPanicSpreads(parts, n + 1);
    }
  }

  function JoinPath(base: string, component: string): string {
    if base == "" then component
    else if component == "" || component[0] == '[' then base + component
    else base + "." + component
  }

  function RootPath(path: string): string {
    if path == "" then "$" else path
  }

  function Subscript(i: nat): string {
    "[" + Itoa(i) + "]"
  }

  // ---------------------------------------------------------- one step down

  function Child(node: Node, value: Json, component: string, parentPath: string): Node {
    Node(value, JoinPath(node.path, component), RootPath(parentPath))
  }

  /** The keys of an object in increasing order. */
  ghost function SortedKeys(keys: set<string>): (sorted: seq<string>)
    ensures forall k :: k in sorted <==> k in keys
    ensures forall i, j | 0 <= i < j < |sorted| :: LexLess(sorted[i], sorted[j])
  {
    if keys == {} then []
    else
      SmallestExists(keys);
      var k :| Smallest(k, keys);
      var rest := SortedKeys(keys - {k});
      assert forall i | 0 <= i < |rest| :: rest[i] in keys - {k} && LexLess(k, rest[i]) by {
        forall i | 0 <= i < |rest| ensures rest[i] in keys - {k} && LexLess(k, rest[i]) {
          assert rest[i] in rest;
          LexTotal(k, rest[i]);
        }
      }
      [k] + rest
  }

  predicate Smallest(k: string, keys: set<string>) {
    k in keys && forall other | other in keys :: LexLe(k, other)
  }

  lemma {:induction false} SmallestExists(keys: set<string>)
    requires keys != {}
    ensures exists k :: Smallest(k, keys)
    decreases |keys|
  {
    var one :| one in keys;
    var rest := keys - {one};
    LexReflexive(one);
    if rest == {} {
      assert keys == {one} && Smallest(one, keys);
    } else {
      SmallestExists(rest);
      var k :| Smallest(k, rest);
      LexTotal(one, k);
      if LexLe(one, k) {
        forall other | other in keys ensures LexLe(one, other) {
          if other != one {
            LexTransitive(one, k, other);
          }
        }
        assert Smallest(one, keys);
      } else {
        assert Smallest(k, keys);
      }
    }
  }

  lemma SmallestIsUnique(a: string, b: string, keys: set<string>)
    requires Smallest(a, keys) && Smallest(b, keys)
    ensures a == b
  {
    LexTotal(a, b);
  }

  /** The fields with these keys that start with the prefix. */
  function Fields(node: Node, fields: map<string, Json>, keys: seq<string>, prefix: string): seq<Node>
    requires forall i | 0 <= i < |keys| :: keys[i] in fields
  {
    if keys == [] then []
    else
      var n := |keys| - 1;
      Fields(node, fields, keys[..n], prefix)
      + (if HasPrefix(keys[n], prefix) then [Child(node, fields[keys[n]], keys[n], node.path)] else [])
  }

  function Elements(node: Node, items: seq<Json>, key: string, parentPath: string): seq<Node> {
    seq(|items|, i requires 0 <= i < |items| => Child(node, items[i], key + Subscript(i), parentPath))
  }

  /** One element by index; none past the end, a panic before the start. */
  function Element(node: Node, items: seq<Json>, index: int, key: string, parentPath: string): Nodes {
    if index >= |items| then Some([])
    else if index < 0 then None
    else Some([Child(node, items[index], key + Subscript(index), parentPath)])
  }

  ghost function StepObject(node: Node, fields: map<string, Json>, t: PathToken): Nodes {
    if t.wildcard then Some(Fields(node, fields, SortedKeys(fields.Keys), ""))
    else if t.prefix != "" then Some(Fields(node, fields, SortedKeys(fields.Keys), t.prefix))
    else if t.key !in fields then Some([])
    else if !t.isArray then Some([Child(node, fields[t.key], t.key, node.path)])
    else if !fields[t.key].Arr? then Some([])
    else
      var items, parentPath := fields[t.key].items, JoinPath(node.path, t.key);
      if t.index.Some? then Element(node, items, t.index.value, t.key, parentPath)
      else Some(Elements(node, items, t.key, parentPath))
  }

  /** What one element of an array contributes. */
  function StepItem(node: Node, items: seq<Json>, i: nat, t: PathToken): Nodes
    requires i < |items|
  {
    if t.key == "" then
      if t.index.Some? then Element(node, items, t.index.value, "", node.path)
      else Some([Child(node, items[i], Subscript(i), node.path)])
    else if !items[i].Obj? || t.key !in items[i].fields then Some([])
    else
      var value := items[i].fields[t.key];
      if !t.isArray then Some([Child(node, value, t.key, node.path)])
      else if value.Arr? then Some(Elements(node, value.items, t.key, JoinPath(node.path, t.key)))
      else Some([])
  }

  function Append(a: Nodes, b: Nodes): Nodes {
    if a.None? || b.None? then None else Some(a.value + b.value)
  }

  function StepItems(node: Node, items: seq<Json>, n: nat, t: PathToken): Nodes
    requires n <= |items|
  {
    if n == 0 then Some([]) else Append(StepItems(node, items, n - 1, t), StepItem(node, items, n - 1, t))
  }

  /** What a token leads to from one node. */
  ghost function Step(node: Node, t: PathToken): Nodes {
    match node.value
    case Obj(fields) => StepObject(node, fields, t)
    case Arr(items) =>
      if t.key == "" && t.isArray then Some(Elements(node, items, "", node.path)) else StepItems(node, items, |items|, t)
    case _ => Some([])
  }

  // ----------------------------------------------- the recursive definition

  /** Everything the tokens lead to from one node: that of each child, in order. */
  ghost function Descend(node: Node, tokens: seq<PathToken>): Nodes
    decreases |tokens|, 0, 0
  {
    if tokens == [] then Some([node])
    else
      var children := Step(node, tokens[0]);
      if children.None? then None else DescendAll(children.value, tokens[1..])
  }

  ghost function DescendAll(nodes: seq<Node>, tokens: seq<PathToken>): Nodes
    decreases |tokens|, 1, |nodes|
  {
    if nodes == [] then Some([])
    else
      var n := |nodes| - 1;
      Append(DescendAll(nodes[..n], tokens), Descend(nodes[n], tokens))
  }

  /** Arrays that are reached are opened, once. */
  function Open(node: Node): seq<ExtractedValue> {
    if node.value.Arr? then
      seq(|node.value.items|, i requires 0 <= i < |node.value.items| =>
        ExtractedValue(node.value.items[i], node.path + Subscript(i), RootPath(node.path)))
    else [ExtractedValue(node.value, node.path, node.context)]
  }

  function OpenAll(nodes: seq<Node>): seq<ExtractedValue> {
    if nodes == [] then [] else OpenAll(nodes[..|nodes| - 1]) + Open(nodes[|nodes| - 1])
  }

  ghost function Extract(data: Json, tokens: seq<PathToken>): Option<seq<ExtractedValue>> {
    var reached := Descend(Node(data, "", ""), tokens);
    if reached.None? then None else Some(OpenAll(reached.value))
  }

  // ----------------------------------------------------- the worklist, in place

  /** The worklist after each token, as a function. */
  ghost function Walk(nodes: seq<Node>, tokens: seq<PathToken>): Nodes
    decreases |tokens|
  {
    if tokens == [] then Some(nodes)
    else
      var next := Level(nodes, tokens[0]);
      if next.None? then None else Walk(next.value, tokens[1..])
  }

  ghost function Level(nodes: seq<Node>, t: PathToken): Nodes {
    if nodes == [] then Some([])
    else
      var n := |nodes| - 1;
      Append(Level(nodes[..n], t), Step(nodes[n], t))
  }

  method CollectSorted(keys: set<string>) returns (sorted: seq<string>)
    ensures sorted == SortedKeys(keys)
  {
    hide SortedKeys, LexLe;
    var rest := keys;
    sorted := [];
    assert SortedKeys({}) == [] by {
      NoKeys();
    }
    while rest != {}
      invariant sorted + SortedKeys(rest) == SortedKeys(keys)
      decreases |rest|
    {
      SmallestExists(rest);
      var k :| k in rest && Smallest(k, rest);
      SmallestComesFirst(rest, k);
      sorted := sorted + [k];
      rest := rest - {k};
    }
  }

  lemma NoKeys()
    ensures SortedKeys({}) == []
  {
  }

  lemma SmallestComesFirst(keys: set<string>, k: string)
    requires Smallest(k, keys)
    ensures SortedKeys(keys) == [k] + SortedKeys(keys - {k})
  {
    hide LexLe;
    forall other | Smallest(other, keys) ensures other == k {
      SmallestIsUnique(k, other, keys);
    }
  }

  method AppendFields(node: Node, fields: map<string, Json>, prefix: string) returns (next: seq<Node>)
    ensures next == Fields(node, fields, SortedKeys(fields.Keys), prefix)
  {
    hide SortedKeys, Child, HasPrefix;
    var keys := CollectSorted(fields.Keys);
    assert forall i | 0 <= i < |keys| :: keys[i] in fields by {
      assert forall i | 0 <= i < |keys| :: keys[i] in keys;
    }
    next := [];
    for i := 0 to |keys|
      invariant next == Fields(node, fields, keys[..i], prefix)
    {
      assert keys[..i + 1][..i] == keys[..i];
      if HasPrefix(keys[i], prefix) {
        next := next + [Child(node, fields[keys[i]], keys[i], node.path)];
      }
    }
    assert keys[..|keys|] == keys;
  }

  method AppendElements(node: Node, items: seq<Json>, key: string, parentPath: string) returns (next: seq<Node>)
    ensures next == Elements(node, items, key, parentPath)
  {
    next := [];
    for i := 0 to |items|
      invariant next == Elements(node, items, key, parentPath)[..i]
    {
      next := next + [Child(node, items[i], key + Subscript(i), parentPath)];
    }
  }

  /** One round of the inner loop of the extraction. */
  method AppendChildren(node: Node, t: PathToken) returns (next: Nodes)
    ensures next == Step(node, t)
  {
    hide Fields, Elements, Element, Child, JoinPath;
    if node.value.Obj? {
      var fields := node.value.fields;
      if t.wildcard {
        var found := AppendFields(node, fields, "");
        return Some(found);
      }
      if t.prefix != "" {
        var found := AppendFields(node, fields, t.prefix);
        return Some(found);
      }
      if t.key !in fields {
        return Some([]);
      }
      if t.isArray {
        if !fields[t.key].Arr? {
          return Some([]);
        }
        var items := fields[t.key].items;
        if t.index.Some? {
          return Element(node, items, t.index.value, t.key, JoinPath(node.path, t.key));
        }
        var all := AppendElements(node, items, t.key, JoinPath(node.path, t.key));
        return Some(all);
      }
      return Some([Child(node, fields[t.key], t.key, node.path)]);
    }
    if node.value.Arr? {
      var items := node.value.items;
      if t.key == "" && t.isArray {
        var all := AppendElements(node, items, "", node.path);
        return Some(all);
      }
      var found: seq<Node> := [];
      for i := 0 to |items|
        invariant StepItems(node, items, i, t) == Some(found)
      {
        var more: Nodes := Some([]);
        if t.key == "" && t.index.Some? {
          more := Element(node, items, t.index.value, "", node.path);
        } else if t.key == "" {
          more := Some([Child(node, items[i], Subscript(i), node.path)]);
        } else if items[i].Obj? && t.key in items[i].fields {
          var value := items[i].fields[t.key];
          if !t.isArray {
            more := Some([Child(node, value, t.key, node.path)]);
          } else if value.Arr? {
            var all := AppendElements(node, value.items, t.key, JoinPath(node.path, t.key));
            more := Some(all);
          }
        }
        assert more == StepItem(node, items, i, t);
        if more.None? {
          ItemPanicSpreads(node, items, i + 1, t);
          return None;
        }
        found := found + more.value;
      }
      return Some(found);
    }
    next := Some([]);
  }

  lemma {:induction false} ItemPanicSpreads(node: Node, items: seq<Json>, n: nat, t: PathToken)
    requires n <= |items| && StepItems(node, items, n, t) == None
    ensures StepItems(node, items, |items|, t) == None
    decreases |items| - n
  {
    if n < |items| {
      ItemPanicSpreads(node, items, n + 1, t);
    }
  }

  lemma {:induction false} LevelPanicSpreads(nodes: seq<Node>, n: nat, t: PathToken)
    requires n <= |nodes| && Level(nodes[..n], t) == None
    ensures Level(nodes, t) == None
    decreases |nodes| - n
  {
    if n == |nodes| {
      assert nodes[..n] == nodes;
    } else {
      assert nodes[..n + 1][..n] == nodes[..n];
      LevelPanicSpreads(nodes, n + 1, t);
    }
  }

  /** ExtractWithTokensAndContext: the worklist gives what the recursive definition gives. */
  method ExtractWithTokensAndContext(data: Json, tokens: seq<PathToken>) returns (result: Option<seq<ExtractedValue>>)
    ensures result == Extract(data, tokens)
  {
    hide Step, Open, Descend, DescendAll;
    var current := [Node(data, "", "")];
    WalkIsDescent(Node(data, "", ""), tokens);
    var n := 0;
    while n < |tokens|
      invariant 0 <= n <= |tokens|
      invariant Walk(current, tokens[n..]) == Descend(Node(data, "", ""), tokens)
    {
      assert tokens[n..][0] == tokens[n] && tokens[n..][1..] == tokens[n + 1..];
      var next: seq<Node> := [];
      for i := 0 to |current|
        invariant Level(current[..i], tokens[n]) == Some(next)
      {
        var children := AppendChildren(current[i], tokens[n]);
        assert current[..i + 1][..i] == current[..i];
        if children.None? {
          LevelPanicSpreads(current, i + 1, tokens[n]);
          return None;
        }
        next := next + children.value;
      }
      assert current[..|current|] == current;
      current := next;
      n := n + 1;
    }
    var extracted: seq<ExtractedValue> := [];
    for i := 0 to |current|
      invariant extracted == OpenAll(current[..i])
    {
      assert current[..i + 1][..i] == current[..i];
      var opened' := OpenNode(current[i]);
      extracted := extracted + opened';
    }
    assert current[..|current|] == current;
    result := Some(extracted);
  }

  method OpenNode(node: Node) returns (values: seq<ExtractedValue>)
    ensures values == Open(node)
  {
    if !node.value.Arr? {
      return [ExtractedValue(node.value, node.path, node.context)];
    }
    var items := node.value.items;
    values := [];
    for i := 0 to |items|
      invariant values == Open(node)[..i]
    {
      values := values + [ExtractedValue(items[i], node.path + Subscript(i), RootPath(node.path))];
    }
  }

  // ------------------------------------------- worklist and recursion agree

  lemma AppendAssociates(a: Nodes, b: Nodes, c: Nodes)
    ensures Append(Append(a, b), c) == Append(a, Append(b, c))
  {
    if a.Some? && b.Some? && c.Some? {
      assert (a.value + b.value) + c.value == a.value + (b.value + c.value);
    }
  }

  lemma {:induction false} LevelAppend(a: seq<Node>, b: seq<Node>, t: PathToken)
    ensures Level(a + b, t) == Append(Level(a, t), Level(b, t))
    decreases |b|
  {
    hide Step;
    if b == [] {
      assert a + b == a;
      assert Level(a, t).Some? ==> Level(a, t).value + [] == Level(a, t).value;
    } else {
      LevelAppend(a, b[..|b| - 1], t);
      assert (a + b)[..|a + b| - 1] == a + b[..|b| - 1];
      assert (a + b)[|a + b| - 1] == b[|b| - 1];
      AppendAssociates(Level(a, t), Level(b[..|b| - 1], t), Step(b[|b| - 1], t));
    }
  }

  /** Two worklists walked as one give their two outcomes one after the other, and a panic in
      either is a panic of the whole. */
  lemma {:induction false} WalkAppend(a: seq<Node>, b: seq<Node>, tokens: seq<PathToken>)
    ensures Walk(a + b, tokens) == Append(Walk(a, tokens), Walk(b, tokens))
    decreases |tokens|
  {
    hide Level;
    if tokens != [] {
      LevelAppend(a, b, tokens[0]);
      var x, y := Level(a, tokens[0]), Level(b, tokens[0]);
      if x.Some? && y.Some? {
        WalkAppend(x.value, y.value, tokens[1..]);
      }
    }
  }

  lemma {:induction false} WalkIsDescentOfAll(nodes: seq<Node>, tokens: seq<PathToken>)
    ensures Walk(nodes, tokens) == DescendAll(nodes, tokens)
    decreases |tokens|, 1, |nodes|
  {
    hide Step, Walk, Descend, Level;
    if nodes == [] {
      WalkNothing(tokens);
    } else {
      var n := |nodes| - 1;
      WalkIsDescentOfAll(nodes[..n], tokens);
      WalkIsDescent(nodes[n], tokens);
      WalkAppend(nodes[..n], [nodes[n]], tokens);
      assert nodes[..n] + [nodes[n]] == nodes;
    }
  }

  /** Walking the worklist token by token is descending recursively, child by child. */
  lemma {:induction false} WalkIsDescent(node: Node, tokens: seq<PathToken>)
    ensures Walk([node], tokens) == Descend(node, tokens)
    decreases |tokens|, 0, 0
  {
    hide Step;
    if tokens != [] {
      assert [node][..0] == [];
      assert Level([node], tokens[0]) == Append(Some([]), Step(node, tokens[0]));
      if Step(node, tokens[0]).Some? {
        var children := Step(node, tokens[0]).value;
        assert [] + children == children;
        WalkIsDescentOfAll(children, tokens[1..]);
      }
    }
  }

  lemma {:induction false} WalkNothing(tokens: seq<PathToken>)
    ensures Walk([], tokens) == Some([])
    decreases |tokens|
  {
    if tokens != [] {
      WalkNothing(tokens[1..]);
    }
  }
}
