/** What path extraction promises: composition over tokens, no panics without negative
    indices, and source paths that lead back to their values. */
module PathExtractionProperties {
  import opened Wrappers
  import opened Text
  import opened Json
  import opened PathExtraction

  // ------------------------------------------------------------ composition

  /** Walking a concatenation of token lists is walking the first and then the second. */
  lemma {:induction false} WalkComposes(nodes: seq<Node>, first: seq<PathToken>, second: seq<PathToken>)
    ensures Walk(nodes, first + second)
            == (var middle := Walk(nodes, first); if middle.None? then None else Walk(middle.value, second))
    decreases |first|
  {
    hide Level;
    if first == [] {
      assert first + second == second;
    } else {
      assert (first + second)[1..] == first[1..] + second;
      if Level(nodes, first[0]).Some? {
        WalkComposes(Level(nodes, first[0]).value, first[1..], second);
      }
    }
  }

  /** So descending by `first + second` descends by `second` from each node reached by `first`. */
  lemma DescentComposes(node: Node, first: seq<PathToken>, second: seq<PathToken>)
    ensures Descend(node, first + second)
            == (var middle := Descend(node, first); if middle.None? then None else DescendAll(middle.value, second))
  {
    hide Walk, Descend;
    WalkIsDescent(node, first + second);
    WalkIsDescent(node, first);
    WalkComposes([node], first, second);
    if Descend(node, first).Some? {
      WalkIsDescentOfAll(Descend(node, first).value, second);
    }
  }

  // ---------------------------------------------------------------- padding

  /** White space around the segments of a path does not matter. */
  lemma {:induction false} PaddingIgnored(parts: seq<string>, padded: seq<string>)
    requires |parts| == |padded| && forall i | 0 <= i < |parts| :: TrimSpace(parts[i]) == TrimSpace(padded[i])
    ensures ParseSegments(parts) == ParseSegments(padded)
  {
    hide TrimSpace, ParseSegment;
    if parts != [] {
      PaddingIgnored(parts[..|parts| - 1], padded[..|padded| - 1]);
    }
  }

  // ----------------------------------------------------------------- panics

  predicate NonNegative(tokens: seq<PathToken>) {
    forall i | 0 <= i < |tokens| :: tokens[i].index.Some? ==> tokens[i].index.value >= 0
  }

  /** Without negative indices nothing panics. */
  lemma {:induction false} NoPanic(nodes: seq<Node>, tokens: seq<PathToken>)
    requires NonNegative(tokens)
    ensures Walk(nodes, tokens).Some?
    decreases |tokens|
  {
    hide Step;
    if tokens != [] {
      LevelTotal(nodes, tokens[0]);
      NoPanic(Level(nodes, tokens[0]).value, tokens[1..]);
    }
  }

  lemma {:induction false} LevelTotal(nodes: seq<Node>, t: PathToken)
    requires t.index.Some? ==> t.index.value >= 0
    ensures Level(nodes, t).Some?
  {
    if nodes != [] {
      var node := nodes[|nodes| - 1];
      LevelTotal(nodes[..|nodes| - 1], t);
      if node.value.Arr? {
        ItemsTotal(node, node.value.items, |node.value.items|, t);
      }
    }
  }

  lemma {:induction false} ItemsTotal(node: Node, items: seq<Json>, n: nat, t: PathToken)
    requires n <= |items|
    requires t.index.Some? ==> t.index.value >= 0
    ensures StepItems(node, items, n, t).Some?
  {
    if n > 0 {
      ItemsTotal(node, items, n - 1, t);
    }
  }

  /** A parsed token carries an index only as an array token with nothing else. */
  predicate ParsedForm(t: PathToken) {
    t.index.Some? ==> t.isArray && !t.wildcard && t.prefix == ""
  }

  lemma {:induction false} ParsedTokensHaveForm(parts: seq<string>)
    requires ParseSegments(parts).Some?
    ensures forall i | 0 <= i < |ParseSegments(parts).value| :: ParsedForm(ParseSegments(parts).value[i])
  {
    hide TrimSpace, ParseSegment, ParsedForm;
    if parts != [] {
      ParsedTokensHaveForm(parts[..|parts| - 1]);
      SegmentForm(TrimSpace(parts[|parts| - 1]));
    }
  }

  lemma SegmentForm(p: string)
    ensures ParseSegment(p).Some? ==> ParsedForm(ParseSegment(p).value)
  {
    hide TrimSpace, Atoi, Bracket, BracketIndex, HasPrefix, HasSuffix, TrimPrefix, TrimSuffix;
  }

  /** A document from which the token leads to `rest`, or has nothing to count back from. */
  function Holding(t: PathToken, rest: Json): Json {
    if t.wildcard then Obj(map["x" := rest])
    else if t.prefix != "" then Obj(map[t.prefix := rest])
    else if !t.isArray then Obj(map[t.key := rest])
    else if t.index.None? then Obj(map[t.key := Arr([rest])])
    else if t.index.value < 0 then Obj(map[t.key := Arr([])])
    else Obj(map[t.key := Arr(seq(t.index.value + 1, i => rest))])
  }

  /** A document in which the tokens lead all the way to the first negative index. */
  function Along(tokens: seq<PathToken>): Json {
    if tokens == [] then Null else Holding(tokens[0], Along(tokens[1..]))
  }

  lemma StepAlong(node: Node, t: PathToken, rest: Json) returns (child: Node)
    requires ParsedForm(t) && node.value == Holding(t, rest)
    ensures if t.index.Some? && t.index.value < 0 then Step(node, t) == None
            else Step(node, t).Some? && child in Step(node, t).value && child.value == rest
  {
    hide Child, JoinPath, SortedKeys;
    child := node;
    if t.wildcard || t.prefix != "" {
      var key := if t.wildcard then "x" else t.prefix;
      var keys := PrefixSelectsExactly(node, t);
      hide Step;
      assert HasPrefix(key, t.prefix) || t.wildcard;
      var i :| 0 <= i < |keys| && keys[i] == key;
      child := Step(node, t).value[i];
      ChildValue(node, rest, key, node.path);
    } else if t.key in node.value.fields && !(t.index.Some? && t.index.value < 0) {
      var found := Step(node, t).value;
      child := found[0];
      ChildValue(node, rest, t.key, node.path);
      ChildValue(node, rest, t.key + Subscript(if t.index.Some? then t.index.value else 0), JoinPath(node.path, t.key));
    }
  }

  lemma ChildValue(node: Node, value: Json, component: string, parentPath: string)
    ensures Child(node, value, component, parentPath).value == value
  {
  }

  lemma {:induction false} NegativeIndexPanics(node: Node, tokens: seq<PathToken>)
    requires (forall i | 0 <= i < |tokens| :: ParsedForm(tokens[i])) && !NonNegative(tokens)
    requires node.value == Along(tokens)
    ensures Walk([node], tokens) == None
    decreases |tokens|
  {
    assert tokens != [];
    var t := tokens[0];
    var child := StepAlong(node, t, Along(tokens[1..]));
    hide Step, Along, ParsedForm, Holding, NonNegative;
    assert [node][..0] == [];
    assert Level([node], t) == Append(Some([]), Step(node, t));
    if Step(node, t).Some? {
      var children := Step(node, t).value;
      assert [] + children == children;
      LaterNegative(tokens);
      NegativeIndexPanics(child, tokens[1..]);
      PanicSpreads(children, child, tokens[1..]);
    }
  }

  lemma LaterNegative(tokens: seq<PathToken>)
    requires !NonNegative(tokens) && (tokens[0].index.Some? ==> tokens[0].index.value >= 0)
    ensures !NonNegative(tokens[1..])
  {
    var i :| 0 <= i < |tokens| && tokens[i].index.Some? && tokens[i].index.value < 0;
    assert tokens[1..][i - 1] == tokens[i];
  }

  lemma PanicSpreads(nodes: seq<Node>, node: Node, tokens: seq<PathToken>)
    requires node in nodes && Walk([node], tokens) == None
    ensures Walk(nodes, tokens) == None
  {
    hide Walk;
    var k :| 0 <= k < |nodes| && nodes[k] == node;
    assert nodes == nodes[..k] + [node] + nodes[k + 1..];
    WalkAppend(nodes[..k] + [node], nodes[k + 1..], tokens);
    WalkAppend(nodes[..k], [node], tokens);
  }

  /** Parsed tokens extract from every document without a panic exactly when no index among
      them is negative. */
  lemma NeverPanicsIff(tokens: seq<PathToken>)
    requires forall i | 0 <= i < |tokens| :: ParsedForm(tokens[i])
    ensures (forall data :: Extract(data, tokens).Some?) <==> NonNegative(tokens)
  {
    hide Walk, Descend, Along, ParsedForm, NonNegative;
    if NonNegative(tokens) {
      forall data ensures Extract(data, tokens).Some? {
        NoPanic([Node(data, "", "")], tokens);
        WalkIsDescent(Node(data, "", ""), tokens);
      }
    } else {
      var node := Node(Along(tokens), "", "");
      NegativeIndexPanics(node, tokens);
      WalkIsDescent(node, tokens);
      assert Extract(Along(tokens), tokens).None?;
    }
  }

  predicate EndsWithFirstBracket(segment: string) {
    segment != [] && Bracket(segment) == |segment| - 1
  }

  /** Parsing panics exactly when some trimmed segment ends with its first '['. */
  lemma {:induction false} ParsingPanicsIff(parts: seq<string>)
    ensures ParseSegments(parts) == None <==> exists i :: 0 <= i < |parts| && EndsWithFirstBracket(TrimSpace(parts[i]))
  {
    hide TrimSpace, ParseSegment, EndsWithFirstBracket;
    if parts != [] {
      var n := |parts| - 1;
      ParsingPanicsIff(parts[..n]);
      SegmentPanicsIff(TrimSpace(parts[n]));
      if i :| 0 <= i < n && EndsWithFirstBracket(TrimSpace(parts[..n][i])) {
        assert EndsWithFirstBracket(TrimSpace(parts[i]));
      }
      if i :| 0 <= i < n && EndsWithFirstBracket(TrimSpace(parts[i])) {
        assert EndsWithFirstBracket(TrimSpace(parts[..n][i]));
      }
    }
  }

  lemma SegmentPanicsIff(p: string)
    ensures ParseSegment(p) == None <==> EndsWithFirstBracket(p)
  {
    hide TrimSpace, Atoi;
    StarredSuffix(p);
  }

  // ------------------------------------------- what the path forms select

  /** The keys a wildcard (with the empty prefix) or a prefix selects, in order. */
  ghost function Selected(keys: seq<string>, prefix: string): (selected: seq<string>)
    ensures forall k :: k in selected <==> k in keys && HasPrefix(k, prefix)
  {
    if keys == [] then []
    else
      var n := |keys| - 1;
      assert keys == keys[..n] + [keys[n]];
      Selected(keys[..n], prefix) + (if HasPrefix(keys[n], prefix) then [keys[n]] else [])
  }

  predicate Ascends(keys: seq<string>) {
    forall i, j | 0 <= i < j < |keys| :: LexLess(keys[i], keys[j])
  }

  lemma {:induction false} SelectedAscends(keys: seq<string>, prefix: string)
    requires Ascends(keys)
    ensures Ascends(Selected(keys, prefix))
  {
    hide LexLe, HasPrefix;
    if keys != [] {
      var n := |keys| - 1;
      SelectedAscends(keys[..n], prefix);
      var before := Selected(keys[..n], prefix);
      forall k | k in before ensures LexLess(k, keys[n]) {
        var m :| 0 <= m < n && keys[..n][m] == k;
        assert keys[m] == k;
      }
    }
  }

  lemma {:induction false} FieldsAreSelected(node: Node, fields: map<string, Json>, keys: seq<string>, prefix: string)
    requires forall i | 0 <= i < |keys| :: keys[i] in fields
    ensures var selected, found := Selected(keys, prefix), Fields(node, fields, keys, prefix);
            && |found| == |selected|
            && forall i | 0 <= i < |found| ::
                 selected[i] in fields && found[i] == Child(node, fields[selected[i]], selected[i], node.path)
  {
    hide Child, HasPrefix;
    if keys != [] {
      FieldsAreSelected(node, fields, keys[..|keys| - 1], prefix);
    }
  }

  lemma SortedAscend(keys: set<string>)
    ensures Ascends(SortedKeys(keys)) && forall i | 0 <= i < |SortedKeys(keys)| :: SortedKeys(keys)[i] in keys
  {
    hide SortedKeys, LexLess;
    var all := SortedKeys(keys);
    assert forall i | 0 <= i < |all| :: all[i] in all;
  }

  lemma AllPrefixed()
    ensures forall k :: HasPrefix(k, "")
  {
  }

  /** On an object `prefix*` selects exactly the keys with that prefix, each once, in strictly
      increasing order of their names, and `*` selects all keys. */
  lemma PrefixSelectsExactly(node: Node, t: PathToken) returns (keys: seq<string>)
    requires node.value.Obj? && (t.wildcard || t.prefix != "")
    ensures var fields := node.value.fields;
            && (forall k :: k in keys <==> k in fields && (t.wildcard || HasPrefix(k, t.prefix)))
            && Ascends(keys)
            && Step(node, t).Some? && |Step(node, t).value| == |keys|
            && forall i | 0 <= i < |keys| ::
                 keys[i] in fields && Step(node, t).value[i] == Child(node, fields[keys[i]], keys[i], node.path)
  {
    hide SortedKeys, Ascends, Child, HasPrefix, LexLess;
    var fields := node.value.fields;
    var all, prefix := SortedKeys(fields.Keys), if t.wildcard then "" else t.prefix;
    SortedAscend(fields.Keys);
    AllPrefixed();
    keys := Selected(all, prefix);
    SelectedAscends(all, prefix);
    FieldsAreSelected(node, fields, all, prefix);
  }

  /** The forms `*`, `[*]`, `key*` and `key[*]` of a segment. */
  lemma StarForms(key: string)
    requires PlainKey(key)
    ensures ParseSegment("*") == Some(EMPTY_TOKEN.(wildcard := true))
    ensures ParseSegment("[*]") == Some(EMPTY_TOKEN.(isArray := true))
    ensures ParseSegment(key + "*") == Some(EMPTY_TOKEN.(prefix := key))
    ensures ParseSegment(key + "[*]") == Some(EMPTY_TOKEN.(key := key, isArray := true))
  {
    StarParses();
    PrefixParses(key);
    AllUnderParses(key);
  }

  lemma StarParses()
    ensures ParseSegment("*") == Some(EMPTY_TOKEN.(wildcard := true))
    ensures ParseSegment("[*]") == Some(EMPTY_TOKEN.(isArray := true))
  {
    NoBracket("*");
    StarredSuffix("*");
    hide HasSuffix, Bracket;
    assert !HasPrefix("*", "[");
  }

  lemma PrefixParses(key: string)
    requires PlainKey(key)
    ensures ParseSegment(key + "*") == Some(EMPTY_TOKEN.(prefix := key))
  {
    var p := key + "*";
    NoBracket(p);
    StarredSuffix(p);
    assert key[0] in key && p[0] == key[0] && (|key| >= 2 ==> p[|p| - 3] == key[|key| - 2] && key[|key| - 2] in key);
    assert p[|p| - 1..] == "*" && p[..|p| - 1] == key;
    assert !HasSuffix(p, "[*]") && HasSuffix(p, "*") && TrimSuffix(p, "*") == key && !HasPrefix(p, "[");
    hide HasSuffix, HasPrefix, Bracket, PlainKey, TrimSuffix;
  }

  lemma AllUnderParses(key: string)
    requires PlainKey(key)
    ensures ParseSegment(key + "[*]") == Some(EMPTY_TOKEN.(key := key, isArray := true))
  {
    var p := key + "[*]";
    assert key[0] in key && p[0] == key[0];
    assert p[|p| - 3..] == "[*]" && p[..|p| - 3] == key;
    assert HasSuffix(p, "[*]") && TrimSuffix(p, "[*]") == key && !HasPrefix(p, "[") && TrimSpace(key) == key;
    hide HasSuffix, HasPrefix, Bracket, PlainKey, TrimSuffix, TrimSpace;
  }

  /** A bare index such as `[2]` does not pick that element of an array: it selects them all,
      as `[*]` does. */
  lemma BareIndexSelectsAll(i: nat, node: Node)
    requires i <= MAX_INT64 && node.value.Arr?
    ensures ParseSegment(Subscript(i)) == Some(PathToken("", true, Some(i), false, ""))
    ensures var t := ParseSegment(Subscript(i)).value;
            Step(node, t) == Some(Elements(node, node.value.items, "", node.path))
            && Step(node, t) == Step(node, EMPTY_TOKEN.(isArray := true))
  {
    var digits := Itoa(i);
    AtoiItoa(i);
    DigitsArePlain(i);
    assert digits[0] in digits && digits[|digits| - 1] in digits;
    assert TrimSpace(digits) == digits by {
      assert Trimmed(digits);
    }
    BareIndexParses(digits, i);
    hide ParseSegment, TrimSpace, Itoa, Atoi;
  }

  /** Every element of an array, under its subscript. */
  function EachElement(node: Node, items: seq<Json>): seq<Node> {
    seq(|items|, i requires 0 <= i < |items| =>
          Node(items[i], JoinPath(node.path, "[" + Itoa(i) + "]"), RootPath(node.path)))
  }

  /** On an array every keyless token the parser yields, with an index or without, `*` and `prefix*`
      included, gives each element in order, its subscript added to the path. So the branch of
      the extraction for a bare index is never taken on a parsed path. */
  lemma KeylessSelectsAll(parts: seq<string>, n: nat, node: Node)
    requires ParseSegments(parts).Some? && n < |ParseSegments(parts).value| && node.value.Arr?
    requires ParseSegments(parts).value[n].key == ""
    ensures Step(node, ParseSegments(parts).value[n]) == Some(EachElement(node, node.value.items))
  {
    hide ParseSegments, Elements, EachElement;
    ParsedTokensHaveForm(parts);
    var t, items := ParseSegments(parts).value[n], node.value.items;
    assert ParsedForm(t);
    ElementsAre(node, items);
    if t.isArray {
      assert Step(node, t) == Some(Elements(node, items, "", node.path));
    } else {
      ItemsAreElements(node, items, |items|, t);
      var all := Elements(node, items, "", node.path);
      assert all[..|items|] == all;
      assert Step(node, t) == StepItems(node, items, |items|, t) == Some(all);
    }
  }

  lemma ElementsAre(node: Node, items: seq<Json>)
    ensures Elements(node, items, "", node.path) == EachElement(node, items) && |EachElement(node, items)| == |items|
  {
    hide JoinPath, RootPath, Itoa;
    forall i | 0 <= i < |items| ensures "" + Subscript(i) == "[" + Itoa(i) + "]" {
    }
  }

  lemma {:induction false} ItemsAreElements(node: Node, items: seq<Json>, n: nat, t: PathToken)
    requires n <= |items| && t.key == "" && t.index.None?
    ensures StepItems(node, items, n, t) == Some(Elements(node, items, "", node.path)[..n])
  {
    hide JoinPath, RootPath, Subscript;
    var all := Elements(node, items, "", node.path);
    if n > 0 {
      ItemsAreElements(node, items, n - 1, t);
      assert "" + Subscript(n - 1) == Subscript(n - 1);
      assert StepItem(node, items, n - 1, t) == Some([all[n - 1]]);
      assert all[..n] == all[..n - 1] + [all[n - 1]];
    }
  }

  lemma BareIndexParses(digits: string, i: int)
    requires digits != "" && digits[0] != '*' && TrimSpace(digits) == digits && Atoi(digits) == Some(i)
    ensures ParseSegment("[" + digits + "]") == Some(PathToken("", true, Some(i), false, ""))
  {
    hide TrimSpace, Atoi, Bracket;
    var s := "[" + digits + "]";
    assert s[1] == digits[0] && s[..1] == "[" && s[|s| - 1..] == "]";
    var rest := digits + "]";
    assert s[1..] == rest && rest[|rest| - 1..] == "]" && rest[..|rest| - 1] == digits;
  }

  // ------------------------------------------------- source paths lead back

  /** A key that is one whole path segment. */
  predicate PlainKey(key: string) {
    key != "" && Trimmed(key) && '.' !in key && '[' !in key && key[|key| - 1] != '*'
  }

  /** Plain keys throughout, no array directly inside an array, and lengths Go can index. */
  predicate Plain(j: Json) {
    match j
    case Obj(fields) => forall k | k in fields :: PlainKey(k) && Plain(fields[k])
    case Arr(items) => |items| <= MAX_INT64 && forall i | 0 <= i < |items| :: !items[i].Arr? && Plain(items[i])
    case _ => true
  }

  /** `reached` is reached from `node` by the tokens with only objects on the way. */
  ghost predicate ThroughObjects(node: Node, tokens: seq<PathToken>, reached: Node)
    decreases |tokens|
  {
    if tokens == [] then reached == node
    else
      && node.value.Obj? && Step(node, tokens[0]).Some?
      && exists child :: child in Step(node, tokens[0]).value && ThroughObjects(child, tokens[1..], reached)
  }

  /** A key, or a key with an array index. */
  datatype Component = Component(key: string, index: Option<nat>)

  function Segment(c: Component): string {
    if c.index.None? then c.key else c.key + Subscript(c.index.value)
  }

  function Render(path: seq<Component>): string {
    if path == [] then "" else JoinPath(Render(path[..|path| - 1]), Segment(path[|path| - 1]))
  }

  /** The path of the object or array holding the last component. */
  function ContextOf(path: seq<Component>): string
    requires path != []
  {
    var holder := Render(path[..|path| - 1]);
    var last := path[|path| - 1];
    RootPath(if last.index.None? then holder else JoinPath(holder, last.key))
  }

  function Select(j: Json, c: Component): Option<Json> {
    if !j.Obj? || c.key !in j.fields then None
    else if c.index.None? then Some(j.fields[c.key])
    else if j.fields[c.key].Arr? && c.index.value < |j.fields[c.key].items| then Some(j.fields[c.key].items[c.index.value])
    else None
  }

  function SelectPath(j: Json, path: seq<Component>): Option<Json> {
    if path == [] then Some(j)
    else
      var holder := SelectPath(j, path[..|path| - 1]);
      if holder.None? then None else Select(holder.value, path[|path| - 1])
  }

  function TokenOf(c: Component): PathToken {
    PathToken(c.key, c.index.Some?, if c.index.Some? then Some(c.index.value) else None, false, "")
  }

  function TokensOf(path: seq<Component>): seq<PathToken> {
    if path == [] then [] else TokensOf(path[..|path| - 1]) + [TokenOf(path[|path| - 1])]
  }

  predicate PlainPath(path: seq<Component>) {
    forall i | 0 <= i < |path| :: PlainKey(path[i].key) && (path[i].index.Some? ==> path[i].index.value <= MAX_INT64)
  }

  /** A node found at the place its path names. */
  predicate Located(data: Json, path: seq<Component>, node: Node) {
    && PlainPath(path) && SelectPath(data, path) == Some(node.value) && node.path == Render(path) && Plain(node.value)
    && (path != [] ==> node.context == ContextOf(path))
  }

  // ------------------------------------------- reached nodes are located

  /** Through an object every child is a key, or an element of an array under a key. */
  lemma ChildIsComponent(node: Node, t: PathToken, child: Node) returns (c: Component)
    requires node.value.Obj? && Plain(node.value)
    requires Step(node, t).Some? && child in Step(node, t).value
    ensures PlainKey(c.key) && (c.index.Some? ==> c.index.value <= MAX_INT64)
    ensures Select(node.value, c) == Some(child.value)
    ensures child == Child(node, child.value, Segment(c), if c.index.None? then node.path else JoinPath(node.path, c.key))
  {
    var fields := node.value.fields;
    if t.wildcard || t.prefix != "" {
      var keys := SortedKeys(fields.Keys);
      assert forall i | 0 <= i < |keys| :: keys[i] in fields by {
        assert forall i | 0 <= i < |keys| :: keys[i] in keys;
      }
      var key := FieldOf(node, fields, keys, if t.wildcard then "" else t.prefix, child);
      c := Component(key, None);
    } else if !t.isArray {
      c := Component(t.key, None);
    } else {
      var items := fields[t.key].items;
      hide JoinPath;
      if t.index.Some? {
        c := Component(t.key, Some(t.index.value));
      } else {
        var i :| 0 <= i < |items| && Elements(node, items, t.key, JoinPath(node.path, t.key))[i] == child;
        c := Component(t.key, Some(i));
      }
    }
  }

  lemma {:induction false} FieldOf(node: Node, fields: map<string, Json>, keys: seq<string>, prefix: string, child: Node)
      returns (key: string)
    requires forall i | 0 <= i < |keys| :: keys[i] in fields
    requires child in Fields(node, fields, keys, prefix)
    ensures key in fields && child == Child(node, fields[key], key, node.path)
  {
    var n := |keys| - 1;
    key := keys[n];
    if child in Fields(node, fields, keys[..n], prefix) {
      key := FieldOf(node, fields, keys[..n], prefix, child);
    }
  }

  lemma {:induction false} ReachedIsLocated(data: Json, path: seq<Component>, node: Node, tokens: seq<PathToken>, reached: Node)
      returns (end: seq<Component>)
    requires Located(data, path, node) && ThroughObjects(node, tokens, reached)
    ensures Located(data, end, reached)
    ensures |end| == |path| + |tokens|
    decreases |tokens|
  {
    if tokens == [] {
      end := path;
    } else {
      hide Step;
      var child :| child in Step(node, tokens[0]).value && ThroughObjects(child, tokens[1..], reached);
      var c := ChildIsComponent(node, tokens[0], child);
      ComponentIsLocated(data, path, node, c, child);
      hide Located, ThroughObjects;
      end := ReachedIsLocated(data, path + [c], child, tokens[1..], reached);
    }
  }

  lemma ComponentIsLocated(data: Json, path: seq<Component>, node: Node, c: Component, child: Node)
    requires Located(data, path, node)
    requires PlainKey(c.key) && (c.index.Some? ==> c.index.value <= MAX_INT64)
    requires Select(node.value, c) == Some(child.value)
    requires child == Child(node, child.value, Segment(c), if c.index.None? then node.path else JoinPath(node.path, c.key))
    ensures Located(data, path + [c], child)
  {
    hide JoinPath, Segment, PlainKey;
    var longer := path + [c];
    assert longer[..|path|] == path && longer[|path|] == c;
    assert Plain(node.value.fields[c.key]);
  }

  // ------------------------------------------- located paths are walked back

  /** From an object a component's token leads to exactly what the component selects. */
  lemma ComponentIsStep(node: Node, c: Component)
    requires PlainKey(c.key) && Select(node.value, c).Some?
    ensures Step(node, TokenOf(c))
            == Some([Child(node, Select(node.value, c).value, Segment(c),
                           if c.index.None? then node.path else JoinPath(node.path, c.key))])
  {
  }

  lemma {:induction false} LocatedIsWalked(data: Json, path: seq<Component>)
    requires PlainPath(path) && path != [] && SelectPath(data, path).Some?
    ensures Walk([Node(data, "", "")], TokensOf(path))
            == Some([Node(SelectPath(data, path).value, Render(path), ContextOf(path))])
    decreases |path|
  {
    hide Step, JoinPath, Select, Segment, PlainKey;
    var n := |path| - 1;
    var root := Node(data, "", "");
    var holder := Node(SelectPath(data, path[..n]).value, Render(path[..n]), if n == 0 then "" else ContextOf(path[..n]));
    if n == 0 {
      assert path[..n] == [];
    } else {
      LocatedIsWalked(data, path[..n]);
    }
    assert Walk([root], TokensOf(path[..n])) == Some([holder]);
    WalkComposes([root], TokensOf(path[..n]), [TokenOf(path[n])]);
    ComponentIsStep(holder, path[n]);
    var t := TokenOf(path[n]);
    WalkOne(holder, t);
    assert [root] + [] == [root] && TokensOf(path) == TokensOf(path[..n]) + [t];
  }

  lemma WalkOne(node: Node, t: PathToken)
    ensures Walk([node], [t]) == Step(node, t)
  {
    hide Step;
    assert [node][..0] == [];
    assert Level([node], t) == Append(Some([]), Step(node, t));
    if Step(node, t).Some? {
      assert [] + Step(node, t).value == Step(node, t).value;
      assert Walk(Step(node, t).value, [t][1..]) == Step(node, t);
    }
  }

  // ------------------------------------------------- parsing a source path

  lemma DigitsArePlain(i: nat)
    ensures forall c | c in Itoa(i) :: IsDigit(c)
  {
  }

  lemma {:induction false} BracketAfter(key: string, rest: string)
    requires '[' !in key && rest != [] && rest[0] == '['
    ensures Bracket(key + rest) == |key|
  {
    if key != [] {
      BracketAfter(key[1..], rest);
      assert (key + rest)[1..] == key[1..] + rest;
      assert key[0] in key;
    } else {
      assert key + rest == rest;
    }
  }

  lemma SegmentParses(c: Component)
    requires PlainKey(c.key) && (c.index.Some? ==> c.index.value <= MAX_INT64)
    ensures '.' !in Segment(c) && Trimmed(Segment(c)) && Segment(c)[0] != '['
    ensures ParseSegment(Segment(c)) == Some(TokenOf(c))
  {
    var s := Segment(c);
    assert s[0] == c.key[0] && c.key[0] in c.key;
    if c.index.None? {
      PlainKeyParses(c.key);
    } else {
      IndexedKeyParses(c.key, c.index.value);
    }
  }

  lemma PlainKeyParses(key: string)
    requires PlainKey(key)
    ensures ParseSegment(key) == Some(EMPTY_TOKEN.(key := key))
  {
    PlainKeyShape(key);
    hide PlainKey, HasPrefix, HasSuffix, TrimPrefix, TrimSuffix, TrimSpace, Atoi, Bracket;
  }

  /** A plain key has none of the forms a segment can have. */
  lemma PlainKeyShape(key: string)
    requires PlainKey(key)
    ensures key != "[*]" && !HasPrefix(key, "[") && !HasSuffix(key, "[*]") && Bracket(key) == |key|
    ensures key != "*" && !HasSuffix(key, "*")
  {
    NoBracket(key);
    StarredSuffix(key);
    LastOfSuffix(key, "*");
    hide HasSuffix, Bracket, Trimmed;
    assert key[0] in key && key[|key| - 1] in key && (|key| >= 3 ==> key[|key| - 3] in key);
  }

  lemma LastOfSuffix(p: string, suffix: string)
    requires suffix != ""
    ensures HasSuffix(p, suffix) ==> p != "" && p[|p| - 1] == suffix[|suffix| - 1]
  {
    if HasSuffix(p, suffix) {
      assert p[|p| - 1] == p[|p| - |suffix|..][|suffix| - 1];
    }
  }

  lemma {:induction false} NoBracket(key: string)
    requires '[' !in key
    ensures Bracket(key) == |key|
  {
    if key != [] {
      assert key[0] in key;
      NoBracket(key[1..]);
    }
  }

  lemma IndexedKeyParses(key: string, i: nat)
    requires PlainKey(key) && i <= MAX_INT64
    ensures ParseSegment(key + Subscript(i)) == Some(PathToken(key, true, Some(i), false, ""))
    ensures '.' !in key + Subscript(i) && Trimmed(key + Subscript(i))
  {
    SubscriptShape(i);
    AtoiItoa(i);
    hide Subscript, Atoi, Itoa, ParseSegment, IsSpace;
    var p := key + Subscript(i);
    assert p[|p| - 1] == Subscript(i)[|Subscript(i)| - 1] && p[0] == key[0];
    BracketedParses(key, Subscript(i), Some(i));
  }

  lemma BracketedParses(key: string, subscript: string, n: Option<int>)
    requires PlainKey(key) && |subscript| >= 3
    requires subscript[0] == '[' && subscript[|subscript| - 1] == ']' && subscript[|subscript| - 2] != '*'
    requires Atoi(subscript[1..|subscript| - 1]) == n
    ensures ParseSegment(key + subscript) == Some(if n.Some? then PathToken(key, true, n, false, "") else EMPTY_TOKEN)
  {
    BracketAfter(key, subscript);
    hide Atoi, Bracket, ParseSegment, IsSpace;
    var p := key + subscript;
    assert p[|p| - 1] == subscript[|subscript| - 1] && p[|p| - 2] == subscript[|subscript| - 2];
    assert p[|key| + 1..|p| - 1] == subscript[1..|subscript| - 1];
    assert p[..|key|] == key;
    IndexedSegmentParses(p, |key|, n);
  }

  /** '[', digits, ']'. */
  lemma SubscriptShape(i: nat)
    ensures var s := Subscript(i);
            && |s| >= 3 && s[0] == '[' && s[|s| - 1] == ']' && s[1..|s| - 1] == Itoa(i) && s[|s| - 2] != '*'
            && '.' !in s && !IsSpace(s[|s| - 1])
  {
    DigitsArePlain(i);
    hide Itoa;
    var s, digits := Subscript(i), Itoa(i);
    assert s[1..|s| - 1] == digits;
    assert s[|s| - 2] == digits[|digits| - 1] && digits[|digits| - 1] in digits;
  }

  function NegativeSubscript(i: int): string
    requires 0 < i
  {
    "[-" + Itoa(i) + "]"
  }

  /** Negative indices do come out of the parser. */
  lemma NegativeIndexParses(key: string, i: int)
    requires PlainKey(key) && 0 < i <= MAX_INT64
    ensures ParseSegment(key + NegativeSubscript(i)) == Some(PathToken(key, true, Some(-i), false, ""))
  {
    AtoiOfNegative(i);
    NegativeSubscriptShape(i);
    hide Itoa, Atoi, ParseSegment, PlainKey, NegativeSubscript;
    BracketedParses(key, NegativeSubscript(i), Some(-i));
  }

  /** A key with brackets around anything but a number loses the key as well: the token is the empty
      one, which names the key "" of an object and every element of an array. */
  lemma BadIndexParses(key: string, inner: string)
    requires PlainKey(key) && inner != "" && inner[|inner| - 1] != '*' && Atoi(inner).None?
    ensures ParseSegment(key + "[" + inner + "]") == Some(EMPTY_TOKEN)
  {
    hide Atoi, ParseSegment, PlainKey;
    var subscript := "[" + inner + "]";
    assert subscript[1..|subscript| - 1] == inner && subscript[|subscript| - 2] == inner[|inner| - 1];
    assert key + subscript == key + "[" + inner + "]";
    BracketedParses(key, subscript, None);
  }

  lemma NegativeSubscriptShape(i: int)
    requires 0 < i
    ensures var s := NegativeSubscript(i);
            |s| >= 3 && s[0] == '[' && s[|s| - 1] == ']' && s[|s| - 2] != '*' && s[1..|s| - 1] == "-" + Itoa(i)
  {
    DigitsArePlain(i);
    hide Itoa;
    var s, digits := NegativeSubscript(i), Itoa(i);
    assert s[1..|s| - 1] == "-" + digits;
    assert s[|s| - 2] == digits[|digits| - 1] && digits[|digits| - 1] in digits;
  }

  lemma AtoiOfNegative(i: int)
    requires 0 < i <= MAX_INT64
    ensures Atoi("-" + Itoa(i)) == Some(-i)
  {
    DigitsValueItoa(i);
    assert ("-" + Itoa(i))[1..] == Itoa(i);
    hide Itoa, DigitsValue;
  }

  lemma IndexedSegmentParses(p: string, n: nat, i: Option<int>)
    requires 0 < n < |p| - 2 && Bracket(p) == n && p[|p| - 1] == ']' && p[|p| - 2] != '*'
    requires Atoi(p[n + 1..|p| - 1]) == i
    ensures ParseSegment(p) == Some(if i.Some? then PathToken(p[..n], true, i, false, "") else EMPTY_TOKEN)
  {
    StarredSuffix(p);
    hide Atoi, Bracket, TrimSpace;
    assert p[0] != '[';
    assert p != "[*]" && !HasPrefix(p, "[");
  }

  lemma StarredSuffix(p: string)
    ensures HasSuffix(p, "[*]") ==> |p| >= 3 && p[|p| - 3] == '[' && p[|p| - 2] == '*'
  {
    if HasSuffix(p, "[*]") {
      assert p[|p| - 3] == p[|p| - 3..][0] && p[|p| - 2] == p[|p| - 3..][1];
    }
  }

  lemma {:induction false} JoinSnoc(parts: seq<string>, last: string, sep: char)
    requires parts != []
    ensures Join(parts + [last], sep) == Join(parts, sep) + [sep] + last
  {
    if |parts| > 1 {
      JoinSnoc(parts[1..], last, sep);
      assert (parts + [last])[1..] == parts[1..] + [last];
    } else {
      assert (parts + [last])[1..] == [last];
    }
  }

  function Segments(path: seq<Component>): (parts: seq<string>)
    ensures |parts| == |path|
    ensures forall i | 0 <= i < |path| :: parts[i] == Segment(path[i])
  {
    if path == [] then [] else Segments(path[..|path| - 1]) + [Segment(path[|path| - 1])]
  }

  /** A source path is its segments joined with dots, and parsing recovers the tokens. */
  lemma {:induction false} RenderIsJoin(path: seq<Component>)
    requires PlainPath(path) && path != []
    ensures Render(path) == Join(Segments(path), '.') && Render(path) != ""
    decreases |path|
  {
    var n := |path| - 1;
    PlainPathStep(path);
    hide PlainPath, Segment, Join, JoinPath;
    if n == 0 {
      assert path[..n] == [];
      JoinOne(Segment(path[n]));
    } else {
      RenderIsJoin(path[..n]);
      JoinOneMore(Segments(path[..n]), Segment(path[n]));
    }
  }

  lemma PlainPathStep(path: seq<Component>)
    requires PlainPath(path) && path != []
    ensures PlainPath(path[..|path| - 1])
    ensures Segment(path[|path| - 1]) != "" && Segment(path[|path| - 1])[0] != '['
  {
    hide PlainKey, Segment;
    SegmentParses(path[|path| - 1]);
    SegmentNotEmpty(path[|path| - 1]);
  }

  lemma SegmentNotEmpty(c: Component)
    requires PlainKey(c.key)
    ensures Segment(c) != ""
  {
  }

  lemma JoinOne(part: string)
    ensures Join([] + [part], '.') == part && JoinPath("", part) == part
  {
  }

  lemma JoinOneMore(parts: seq<string>, last: string)
    requires parts != [] && Join(parts, '.') != "" && last != "" && last[0] != '['
    ensures JoinPath(Join(parts, '.'), last) == Join(parts + [last], '.') != ""
  {
    JoinSnoc(parts, last, '.');
  }

  lemma {:induction false} SegmentsParse(path: seq<Component>)
    requires PlainPath(path)
    ensures ParseSegments(Segments(path)) == Some(TokensOf(path))
    ensures forall i | 0 <= i < |path| :: '.' !in Segments(path)[i]
    decreases |path|
  {
    hide Segment, ParseSegment, PlainKey, TrimSpace;
    if path != [] {
      var n := |path| - 1;
      SegmentsParse(path[..n]);
      SegmentParses(path[n]);
      assert Segments(path)[..n] == Segments(path[..n]);
    }
  }

  lemma RenderedPathParses(path: seq<Component>)
    requires PlainPath(path) && path != []
    ensures ParseSegments(Split(Render(path), '.')) == Some(TokensOf(path))
  {
    hide ParseSegments, PlainPath, Render;
    RenderIsJoin(path);
    SegmentsParse(path);
    SplitJoin(Segments(path), '.');
  }

  // -------------------------------------------------------- the round trip

  /** A value found through objects only, in a plain document, is found again by its source
      path: that path gives exactly that value, path and context, and nothing else. */
  lemma SourcePathLeadsBack(data: Json, tokens: seq<PathToken>, reached: Node, x: ExtractedValue)
    requires Plain(data) && tokens != []
    requires ThroughObjects(Node(data, "", ""), tokens, reached) && x in Open(reached)
    ensures ParseSegments(Split(x.sourcePath, '.')).Some?
    ensures Extract(data, ParseSegments(Split(x.sourcePath, '.')).value) == Some([x])
  {
    hide ThroughObjects, Plain, Walk, Descend, PlainKey, Select, Split, ParseSegments;
    var path := ReachedIsLocated(data, [], Node(data, "", ""), tokens, reached);
    var i := OpenedIsLocated(data, path, reached, x);
    RenderedPathParses(i);
    LocatedIsWalked(data, i);
    WalkIsDescent(Node(data, "", ""), TokensOf(i));
    var node := Node(x.value, x.sourcePath, x.contextPath);
    assert Descend(Node(data, "", ""), TokensOf(i)) == Some([node]);
    assert [node][..0] == [] && OpenAll([node]) == OpenAll([]) + Open(node);
    assert OpenAll([node]) == [x];
    assert Extract(data, TokensOf(i)) == Some([x]);
  }

  /** What opening a located node gives is itself located, and not an array. */
  lemma OpenedIsLocated(data: Json, path: seq<Component>, reached: Node, x: ExtractedValue) returns (at: seq<Component>)
    requires Plain(data) && path != [] && Located(data, path, reached) && x in Open(reached)
    ensures at != [] && Located(data, at, Node(x.value, x.sourcePath, x.contextPath)) && !x.value.Arr?
  {
    at := path;
    if reached.value.Arr? {
      var n := |path| - 1;
      var i :| 0 <= i < |reached.value.items| && x == Open(reached)[i];
      ElementsAreNoArrays(data, path);
      at := ElementIsLocated(data, path, reached, i);
    }
  }

  lemma ElementIsLocated(data: Json, path: seq<Component>, whole: Node, i: nat) returns (at: seq<Component>)
    requires path != [] && Located(data, path, whole) && path[|path| - 1].index.None?
    requires whole.value.Arr? && i < |whole.value.items|
    ensures at != []
    ensures Located(data, at, Node(whole.value.items[i], whole.path + Subscript(i), RootPath(whole.path)))
  {
    hide SelectPath, Render, ContextOf, PlainKey, Plain, Subscript, RootPath;
    at := Indexing(path, i);
    PlainElement(whole.value, i);
    PlainIsNotEmpty(path[|path| - 1].key);
    ElementPaths(path, i);
    ElementSelected(data, path, i);
    assert PlainPath(at);
  }

  lemma PlainIsNotEmpty(key: string)
    requires PlainKey(key)
    ensures key != ""
  {
  }

  lemma PlainElement(j: Json, i: nat)
    requires Plain(j) && j.Arr? && i < |j.items|
    ensures Plain(j.items[i]) && i <= MAX_INT64
  {
  }

  /** The path of an element of the array at a path. */
  function Indexing(path: seq<Component>, i: nat): seq<Component>
    requires path != []
  {
    path[..|path| - 1] + [Component(path[|path| - 1].key, Some(i))]
  }

  lemma ElementPaths(path: seq<Component>, i: nat)
    requires path != [] && path[|path| - 1].index.None? && path[|path| - 1].key != ""
    ensures Render(Indexing(path, i)) == Render(path) + Subscript(i)
    ensures ContextOf(Indexing(path, i)) == RootPath(Render(path))
  {
    var n := |path| - 1;
    var at := Indexing(path, i);
    assert at[..n] == path[..n];
    JoinAssociates(Render(path[..n]), path[n].key, Subscript(i));
    hide JoinPath, Subscript;
  }

  lemma ElementSelected(data: Json, path: seq<Component>, i: nat)
    requires path != [] && path[|path| - 1].index.None?
    requires SelectPath(data, path).Some? && SelectPath(data, path).value.Arr? && i < |SelectPath(data, path).value.items|
    ensures SelectPath(data, Indexing(path, i)) == Some(SelectPath(data, path).value.items[i])
  {
    assert Indexing(path, i)[..|path| - 1] == path[..|path| - 1];
  }

  lemma JoinAssociates(base: string, key: string, subscript: string)
    ensures key != "" ==> JoinPath(base, key + subscript) == JoinPath(base, key) + subscript
  {
    if key != "" && base != "" {
      assert (key + subscript)[0] == key[0];
      assert base + "." + (key + subscript) == base + "." + key + subscript;
      assert base + (key + subscript) == base + key + subscript;
    }
  }

  /** In a plain document an indexed place holds no array. */
  lemma {:induction false} ElementsAreNoArrays(data: Json, path: seq<Component>)
    requires Plain(data) && path != [] && SelectPath(data, path).Some?
    ensures path[|path| - 1].index.Some? ==> !SelectPath(data, path).value.Arr?
  {
    PlainEverywhere(data, path[..|path| - 1]);
    hide PlainKey;
  }

  lemma {:induction false} PlainEverywhere(data: Json, path: seq<Component>)
    requires Plain(data) && SelectPath(data, path).Some?
    ensures Plain(SelectPath(data, path).value)
    decreases |path|
  {
    hide PlainKey;
    if path != [] {
      PlainEverywhere(data, path[..|path| - 1]);
    }
  }

  /** When every node met on the way is an object, every node reached qualifies. */
  ghost predicate OnlyObjects(nodes: seq<Node>, tokens: seq<PathToken>)
    decreases |tokens|
  {
    tokens == [] ||
    (&& (forall i | 0 <= i < |nodes| :: nodes[i].value.Obj?)
     && Level(nodes, tokens[0]).Some? && OnlyObjects(Level(nodes, tokens[0]).value, tokens[1..]))
  }

  lemma {:induction false} ReachedThroughObjects(nodes: seq<Node>, tokens: seq<PathToken>, reached: Node)
    requires OnlyObjects(nodes, tokens) && Walk(nodes, tokens).Some? && reached in Walk(nodes, tokens).value
    ensures exists i :: 0 <= i < |nodes| && ThroughObjects(nodes[i], tokens, reached)
    decreases |tokens|
  {
    hide Step;
    if tokens == [] {
      var i :| 0 <= i < |nodes| && nodes[i] == reached;
      assert ThroughObjects(nodes[i], tokens, reached);
    } else {
      var next := Level(nodes, tokens[0]).value;
      ReachedThroughObjects(next, tokens[1..], reached);
      var k :| 0 <= k < |next| && ThroughObjects(next[k], tokens[1..], reached);
      var i := ParentOf(nodes, tokens[0], next[k]);
      assert ThroughObjects(nodes[i], tokens, reached);
    }
  }

  lemma {:induction false} ParentOf(nodes: seq<Node>, t: PathToken, child: Node) returns (i: nat)
    requires Level(nodes, t).Some? && child in Level(nodes, t).value
    ensures i < |nodes| && Step(nodes[i], t).Some? && child in Step(nodes[i], t).value
  {
    hide Step;
    i := |nodes| - 1;
    if child !in Step(nodes[i], t).value {
      i := ParentOf(nodes[..i], t, child);
    }
  }

  /** The round trip for a whole extraction that meets only objects on the way. */
  lemma ExtractionRoundTrips(data: Json, tokens: seq<PathToken>, x: ExtractedValue)
    requires Plain(data) && tokens != [] && OnlyObjects([Node(data, "", "")], tokens)
    requires Extract(data, tokens).Some? && x in Extract(data, tokens).value
    ensures ParseSegments(Split(x.sourcePath, '.')).Some?
    ensures Extract(data, ParseSegments(Split(x.sourcePath, '.')).value) == Some([x])
  {
    hide Walk, Descend, Open, ThroughObjects, OnlyObjects, Plain, Split, ParseSegments;
    WalkIsDescent(Node(data, "", ""), tokens);
    var reached := OpenedFrom(Descend(Node(data, "", ""), tokens).value, x);
    ReachedThroughObjects([Node(data, "", "")], tokens, reached);
    SourcePathLeadsBack(data, tokens, reached, x);
  }

  lemma {:induction false} OpenedFrom(nodes: seq<Node>, x: ExtractedValue) returns (node: Node)
    requires x in OpenAll(nodes)
    ensures node in nodes && x in Open(node)
  {
    hide Open;
    node := nodes[|nodes| - 1];
    if x !in Open(node) {
      node := OpenedFrom(nodes[..|nodes| - 1], x);
    }
  }
}
