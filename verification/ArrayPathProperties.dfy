/** When the source path of a value found through an array of objects leads back to that value
    alone, and what extraction below an array does with an index. */
module ArrayPathProperties {
  import opened Wrappers
  import opened Text
  import opened Json
  import opened PathExtraction
  import opened PathExtractionProperties

  // -------------------------------------------- what one element contributes

  /** The first token with any index it has left out: all elements instead of one. */
  function AnyIndex(tokens: seq<PathToken>): seq<PathToken>
    requires tokens != []
  {
    [tokens[0].(index := None)] + tokens[1..]
  }

  /** What an element of the array at path `a` gives for the path below it: nothing unless it is
      an object, and otherwise what is extracted from it, the first index not being looked at. */
  ghost function Gives(item: Json, a: string, below: seq<Component>): seq<ExtractedValue>
    requires below != []
  {
    if !item.Obj? then []
    else
      TokensCount(below);
      var reached := Walk([Node(item, a, "")], AnyIndex(TokensOf(below)));
      if reached.None? then [] else OpenAll(reached.value)
  }

  ghost function GivesAll(items: seq<Json>, a: string, below: seq<Component>): seq<ExtractedValue>
    requires below != []
  {
    if items == [] then [] else GivesAll(items[..|items| - 1], a, below) + Gives(items[|items| - 1], a, below)
  }

  /** Exactly one element gives something, and that is `x`. */
  ghost predicate OneGives(items: seq<Json>, a: string, below: seq<Component>, x: ExtractedValue)
    requires below != []
  {
    exists i :: 0 <= i < |items| && GivesAlone(items, i, a, below, x)
  }

  ghost predicate GivesAlone(items: seq<Json>, i: nat, a: string, below: seq<Component>, x: ExtractedValue)
    requires i < |items| && below != []
  {
    Gives(items[i], a, below) == [x] && forall j | 0 <= j < |items| && j != i :: Gives(items[j], a, below) == []
  }

  lemma {:induction false} TokensCount(path: seq<Component>)
    ensures |TokensOf(path)| == |path|
    ensures forall i | 0 <= i < |path| :: TokensOf(path)[i] == TokenOf(path[i])
  {
    hide TokenOf;
    if path != [] {
      TokensCount(path[..|path| - 1]);
    }
  }

  lemma {:induction false} TokensConcat(path: seq<Component>, below: seq<Component>)
    ensures TokensOf(path + below) == TokensOf(path) + TokensOf(below)
    decreases |below|
  {
    hide TokenOf;
    if below == [] {
      assert path + below == path;
    } else {
      var n := |below| - 1;
      assert (path + below)[..|path| + n] == path + below[..n] && (path + below)[|path| + n] == below[n];
      TokensConcat(path, below[..n]);
    }
  }

  // ------------------------------------------- extraction below an array

  lemma {:induction false} OpenedConcat(a: seq<Node>, b: seq<Node>)
    ensures OpenAll(a + b) == OpenAll(a) + OpenAll(b)
    decreases |b|
  {
    hide Open;
    if b == [] {
      assert a + b == a;
    } else {
      var n := |b| - 1;
      assert (a + b)[..|a| + n] == a + b[..n] && (a + b)[|a| + n] == b[n];
      OpenedConcat(a, b[..n]);
    }
  }

  /** An element that is an object is stepped into as an object is, but for the index. */
  lemma ItemIsStep(whole: Node, items: seq<Json>, i: nat, c: Component)
    requires i < |items| && c.key != ""
    ensures var step := StepItem(whole, items, i, TokenOf(c));
            step == if items[i].Obj? then Step(Node(items[i], whole.path, ""), TokenOf(c).(index := None)) else Some([])
    ensures StepItem(whole, items, i, TokenOf(c)).Some?
  {
    hide JoinPath;
    if items[i].Obj? && c.key in items[i].fields && c.index.Some? && items[i].fields[c.key].Arr? {
      var list, parentPath := items[i].fields[c.key].items, JoinPath(whole.path, c.key);
      assert Elements(whole, list, c.key, parentPath) == Elements(Node(items[i], whole.path, ""), list, c.key, parentPath);
    }
  }

  lemma {:induction false} PlainTokens(below: seq<Component>)
    requires PlainPath(below) && below != []
    ensures |TokensOf(below)| == |below| && NonNegative(TokensOf(below)[1..]) && below[0].key != ""
  {
    TokensCount(below);
    PlainIsNotEmpty(below[0].key);
  }

  lemma FirstKey(below: seq<Component>)
    requires below != []
    ensures |TokensOf(below)| == |below| && TokensOf(below)[0] == TokenOf(below[0])
  {
    TokensCount(below);
  }

  lemma ItemGives(whole: Node, items: seq<Json>, i: nat, below: seq<Component>)
    requires i < |items| && PlainPath(below) && below != []
    ensures |TokensOf(below)| == |below|
    ensures var step := StepItem(whole, items, i, TokensOf(below)[0]);
            && step.Some? && Walk(step.value, TokensOf(below)[1..]).Some?
            && OpenAll(Walk(step.value, TokensOf(below)[1..]).value) == Gives(items[i], whole.path, below)
  {
    TokensCount(below);
    PlainTokens(below);
    hide Step, StepItem, Walk, TokenOf, TokensOf, PlainPath, NonNegative;
    var tokens := TokensOf(below);
    var t, rest := tokens[0].(index := None), tokens[1..];
    ItemIsStep(whole, items, i, below[0]);
    var step := StepItem(whole, items, i, tokens[0]);
    NoPanic(step.value, rest);
    if items[i].Obj? {
      var node := Node(items[i], whole.path, "");
      WalkComposes([node], [t], rest);
      WalkOne(node, t);
    } else {
      WalkNothing(rest);
    }
  }

  lemma {:induction false} ItemsGive(whole: Node, items: seq<Json>, n: nat, below: seq<Component>)
    requires n <= |items| && PlainPath(below) && below != []
    ensures |TokensOf(below)| == |below|
    ensures var reached := StepItems(whole, items, n, TokensOf(below)[0]);
            && reached.Some? && Walk(reached.value, TokensOf(below)[1..]).Some?
            && OpenAll(Walk(reached.value, TokensOf(below)[1..]).value) == GivesAll(items[..n], whole.path, below)
  {
    TokensCount(below);
    hide Walk, StepItem, OpenAll, Gives, TokensOf, PlainPath;
    var tokens := TokensOf(below);
    if n == 0 {
      WalkNothing(tokens[1..]);
      OpenedNothing();
    } else {
      ItemsGive(whole, items, n - 1, below);
      ItemGives(whole, items, n - 1, below);
      var before, step := StepItems(whole, items, n - 1, tokens[0]).value, StepItem(whole, items, n - 1, tokens[0]).value;
      WalkAppend(before, step, tokens[1..]);
      OpenedConcat(Walk(before, tokens[1..]).value, Walk(step, tokens[1..]).value);
      assert items[..n][..n - 1] == items[..n - 1];
    }
  }

  lemma OpenedNothing()
    ensures OpenAll([]) == []
  {
  }

  /** The path to an array leads to it and nowhere else. */
  lemma ArrayIsWalked(data: Json, path: seq<Component>, items: seq<Json>) returns (whole: Node)
    requires PlainPath(path) && SelectPath(data, path) == Some(Arr(items))
    ensures Walk([Node(data, "", "")], TokensOf(path)) == Some([whole])
    ensures whole.value == Arr(items) && whole.path == Render(path)
  {
    whole := Node(Arr(items), Render(path), if path == [] then "" else ContextOf(path));
    if path != [] {
      LocatedIsWalked(data, path);
    }
  }

  lemma ArrayStep(whole: Node, t: PathToken)
    requires whole.value.Arr? && t.key != ""
    ensures Step(whole, t) == StepItems(whole, whole.value.items, |whole.value.items|, t)
  {
  }

  /** From an array on, the walk is that of what its elements lead to. */
  lemma WalkBelow(data: Json, path: seq<Component>, whole: Node, tokens: seq<PathToken>)
    requires Walk([Node(data, "", "")], TokensOf(path)) == Some([whole])
    requires whole.value.Arr? && tokens != [] && tokens[0].key != ""
    ensures Descend(Node(data, "", ""), TokensOf(path) + tokens)
            == (var reached := StepItems(whole, whole.value.items, |whole.value.items|, tokens[0]);
                if reached.None? then None else Walk(reached.value, tokens[1..]))
  {
    hide Step, Walk, Descend, StepItems, TokensOf;
    var root := Node(data, "", "");
    ArrayStep(whole, tokens[0]);
    WalkComposes([root], TokensOf(path), tokens);
    assert tokens == [tokens[0]] + tokens[1..];
    WalkComposes([whole], [tokens[0]], tokens[1..]);
    WalkOne(whole, tokens[0]);
    WalkIsDescent(root, TokensOf(path) + tokens);
  }

  /** Extraction by a path to an array and a path below it: what its elements give, in order. */
  lemma BelowArray(data: Json, path: seq<Component>, items: seq<Json>, below: seq<Component>)
    requires PlainPath(path) && PlainPath(below) && below != [] && SelectPath(data, path) == Some(Arr(items))
    ensures Extract(data, TokensOf(path) + TokensOf(below)) == Some(GivesAll(items, Render(path), below))
  {
    hide Walk, Descend, StepItems, OpenAll, GivesAll, TokensOf, Render, PlainPath, SelectPath, NonNegative;
    PlainTokens(below);
    FirstKey(below);
    var whole := ArrayIsWalked(data, path, items);
    WalkBelow(data, path, whole, TokensOf(below));
    ItemsGive(whole, items, |items|, below);
    assert items[..|items|] == items;
  }

  /** Directly below an array of objects an index selects nothing in particular: `list.tags[0]`
      gives every tag of every element, as `list.tags[*]` does. */
  lemma IndexBelowArrayIgnored(data: Json, path: seq<Component>, items: seq<Json>, below: seq<Component>)
    requires PlainPath(path) && PlainPath(below) && below != [] && SelectPath(data, path) == Some(Arr(items))
    ensures |TokensOf(below)| == |below|
    ensures Extract(data, TokensOf(path) + TokensOf(below)) == Extract(data, TokensOf(path) + AnyIndex(TokensOf(below)))
  {
    hide Walk, Descend, StepItems, OpenAll, TokensOf, Render, PlainPath, SelectPath, NonNegative;
    PlainTokens(below);
    FirstKey(below);
    var tokens := TokensOf(below);
    var whole := ArrayIsWalked(data, path, items);
    WalkBelow(data, path, whole, tokens);
    WalkBelow(data, path, whole, AnyIndex(tokens));
    ItemsIgnoreIndex(whole, items, |items|, tokens[0]);
    assert AnyIndex(tokens)[1..] == tokens[1..];
  }

  lemma {:induction false} ItemsIgnoreIndex(whole: Node, items: seq<Json>, n: nat, t: PathToken)
    requires n <= |items| && t.key != ""
    ensures StepItems(whole, items, n, t) == StepItems(whole, items, n, t.(index := None))
  {
    hide Elements, JoinPath;
    if n > 0 {
      ItemsIgnoreIndex(whole, items, n - 1, t);
    }
  }

  // ------------------------------------------------ when the path leads back

  lemma {:induction false} NothingGivenIff(items: seq<Json>, a: string, below: seq<Component>)
    requires below != []
    ensures GivesAll(items, a, below) == [] <==> forall j | 0 <= j < |items| :: Gives(items[j], a, below) == []
  {
    hide Gives;
    if items != [] {
      var n := |items| - 1;
      NothingGivenIff(items[..n], a, below);
      assert forall j | 0 <= j < n :: items[..n][j] == items[j];
    }
  }

  lemma {:induction false} OneGivenIff(items: seq<Json>, a: string, below: seq<Component>, x: ExtractedValue)
    requires below != []
    ensures GivesAll(items, a, below) == [x] <==> OneGives(items, a, below, x)
  {
    hide Gives;
    if items != [] {
      var n := |items| - 1;
      var before, last := items[..n], Gives(items[n], a, below);
      OneGivenIff(before, a, below, x);
      NothingGivenIff(before, a, below);
      GiverIsLastOrBefore(items, a, below, x);
      hide OneGives;
      assert GivesAll(items, a, below) == GivesAll(before, a, below) + last;
      assert GivesAll(before, a, below) == [] ==> GivesAll(items, a, below) == last;
      assert last == [] ==> GivesAll(items, a, below) == GivesAll(before, a, below);
      assert GivesAll(before, a, below) != [] && last != [] ==> |GivesAll(items, a, below)| >= 2;
    }
  }

  lemma GiverIsLastOrBefore(items: seq<Json>, a: string, below: seq<Component>, x: ExtractedValue)
    requires items != [] && below != []
    ensures var n := |items| - 1;
            OneGives(items, a, below, x) <==>
              (if Gives(items[n], a, below) != [] then
                 Gives(items[n], a, below) == [x] && forall j | 0 <= j < n :: Gives(items[..n][j], a, below) == []
               else OneGives(items[..n], a, below, x))
  {
    hide Gives;
    var n := |items| - 1;
    var before := items[..n];
    assert forall j | 0 <= j < n :: before[j] == items[j];
    if i :| 0 <= i < |items| && GivesAlone(items, i, a, below, x) {
      if i < n {
        assert GivesAlone(before, i, a, below, x);
      }
    }
    if Gives(items[n], a, below) == [x] && forall j | 0 <= j < n :: Gives(before[j], a, below) == [] {
      assert GivesAlone(items, n, a, below, x);
    }
    if Gives(items[n], a, below) == [] && OneGives(before, a, below, x) {
      var i :| 0 <= i < n && GivesAlone(before, i, a, below, x);
      assert GivesAlone(items, i, a, below, x);
    }
  }

  lemma PathBelowParses(path: seq<Component>, below: seq<Component>)
    requires PlainPath(path) && PlainPath(below) && below != []
    ensures ParseSegments(Split(Render(path + below), '.')) == Some(TokensOf(path) + TokensOf(below))
  {
    assert PlainPath(path + below) by {
      hide PlainKey;
    }
    hide ParseSegments, Split, PlainPath, Render, TokensOf;
    RenderedPathParses(path + below);
    TokensConcat(path, below);
  }

  /** A source path does not say which element of an array of objects it went through. Wherever
      the array is and however the path goes on below it, through further arrays or not, it leads
      back to a value alone exactly when one element gives that value and the others nothing. */
  lemma ArrayPathLeadsBackIff(data: Json, path: seq<Component>, items: seq<Json>, below: seq<Component>, x: ExtractedValue)
    requires PlainPath(path) && PlainPath(below) && below != [] && SelectPath(data, path) == Some(Arr(items))
    requires x.sourcePath == Render(path + below)
    ensures var tokens := TokensOf(path) + TokensOf(below);
            && ParseSegments(Split(x.sourcePath, '.')) == Some(tokens)
            && (Extract(data, tokens) == Some([x]) <==> OneGives(items, Render(path), below, x))
  {
    hide ParseSegments, Split, PlainPath, SelectPath, Render, TokensOf, OneGives, Extract;
    PathBelowParses(path, below);
    BelowArray(data, path, items, below);
    OneGivenIff(items, Render(path), below, x);
  }

  // ------------------------------------------------------ one key below it

  /** The element has something to give; an empty array under the key opens to nothing. */
  predicate Yields(item: Json, b: string) {
    item.Obj? && b in item.fields && item.fields[b] != Arr([])
  }

  /** Exactly one element has something to give for the key, and that is the value `v`. */
  predicate OnlyHolder(items: seq<Json>, b: string, v: Json) {
    exists i :: 0 <= i < |items| && HoldsAlone(items, i, b, v)
  }

  predicate HoldsAlone(items: seq<Json>, i: nat, b: string, v: Json)
    requires i < |items|
  {
    && items[i].Obj? && b in items[i].fields && items[i].fields[b] == v
    && forall j | 0 <= j < |items| && j != i :: !Yields(items[j], b)
  }

  lemma KeyGives(item: Json, a: string, b: string)
    requires PlainKey(b)
    ensures Gives(item, a, [Component(b, None)])
            == if item.Obj? && b in item.fields then Open(Node(item.fields[b], JoinPath(a, b), RootPath(a))) else []
  {
    PlainIsNotEmpty(b);
    var below, node, t := [Component(b, None)], Node(item, a, ""), TokenOf(Component(b, None));
    TokensCount(below);
    assert AnyIndex(TokensOf(below)) == [t];
    hide PlainKey, JoinPath, Open, Walk, TokensOf, AnyIndex;
    WalkOne(node, t);
    OpenedNothing();
    if item.Obj? && b in item.fields {
      OpenedConcat([], [Node(item.fields[b], JoinPath(a, b), RootPath(a))]);
      OpenedOne(Node(item.fields[b], JoinPath(a, b), RootPath(a)));
    }
  }

  lemma OpenedOne(node: Node)
    ensures OpenAll([node]) == Open(node)
  {
    hide Open;
    assert [node][..0] == [];
    OpenedNothing();
  }

  lemma ValueGiven(item: Json, a: string, b: string, v: Json)
    requires PlainKey(b) && !v.Arr?
    ensures Gives(item, a, [Component(b, None)]) == [] <==> !Yields(item, b)
    ensures Gives(item, a, [Component(b, None)]) == [ExtractedValue(v, JoinPath(a, b), RootPath(a))]
            <==> item.Obj? && b in item.fields && item.fields[b] == v
  {
    KeyGives(item, a, b);
    hide JoinPath, PlainKey, Gives;
    if item.Obj? && b in item.fields && item.fields[b].Arr? && item.fields[b] != Arr([]) {
      var first := Gives(item, a, [Component(b, None)])[0];
      assert |first.sourcePath| > |JoinPath(a, b)|;
    }
  }

  lemma HolderGives(items: seq<Json>, a: string, b: string, v: Json)
    requires PlainKey(b) && !v.Arr?
    ensures OneGives(items, a, [Component(b, None)], ExtractedValue(v, JoinPath(a, b), RootPath(a))) <==> OnlyHolder(items, b, v)
  {
    hide JoinPath, PlainKey, Gives, Yields;
    var below, x := [Component(b, None)], ExtractedValue(v, JoinPath(a, b), RootPath(a));
    forall i | 0 <= i < |items|
      ensures Gives(items[i], a, below) == [] <==> !Yields(items[i], b)
      ensures Gives(items[i], a, below) == [x] <==> items[i].Obj? && b in items[i].fields && items[i].fields[b] == v
    {
      ValueGiven(items[i], a, b, v);
    }
    if i :| 0 <= i < |items| && GivesAlone(items, i, a, below, x) {
      assert HoldsAlone(items, i, b, v);
    }
    if i :| 0 <= i < |items| && HoldsAlone(items, i, b, v) {
      assert GivesAlone(items, i, a, below, x);
    }
  }

  /** One key below the array, in terms of the document: the path leads back to the value alone
      exactly when one element holds it under the key and no other has anything to give for it. */
  lemma KeyPathLeadsBackIff(data: Json, path: seq<Component>, items: seq<Json>, b: string, v: Json)
    requires PlainPath(path) && PlainKey(b) && SelectPath(data, path) == Some(Arr(items)) && !v.Arr?
    ensures var x := ExtractedValue(v, JoinPath(Render(path), b), RootPath(Render(path)));
            && ParseSegments(Split(x.sourcePath, '.')).Some?
            && (Extract(data, ParseSegments(Split(x.sourcePath, '.')).value) == Some([x]) <==> OnlyHolder(items, b, v))
  {
    var below, x := [Component(b, None)], ExtractedValue(v, JoinPath(Render(path), b), RootPath(Render(path)));
    KeyRenders(path, b);
    hide ParseSegments, Split, SelectPath, Render, TokensOf, OneGives, Extract, OnlyHolder, JoinPath, PlainKey;
    ArrayPathLeadsBackIff(data, path, items, below, x);
    HolderGives(items, Render(path), b, v);
  }

  lemma KeyRenders(path: seq<Component>, b: string)
    requires PlainKey(b)
    ensures PlainPath([Component(b, None)])
    ensures Render(path + [Component(b, None)]) == JoinPath(Render(path), b)
  {
    hide PlainKey;
    assert (path + [Component(b, None)])[..|path|] == path;
  }

  /** Two elements with the key: extracting again by the one path gives both. */
  lemma ArrayStepForgetsIndex(data: Json, path: seq<Component>, b: string, x: Json, y: Json)
    requires PlainPath(path) && PlainKey(b) && !x.Arr? && !y.Arr?
    requires SelectPath(data, path) == Some(Arr([Obj(map[b := x]), Obj(map[b := y])]))
    ensures var source, context := JoinPath(Render(path), b), RootPath(Render(path));
            && ParseSegments(Split(source, '.')).Some?
            && Extract(data, ParseSegments(Split(source, '.')).value)
               == Some([ExtractedValue(x, source, context), ExtractedValue(y, source, context)])
  {
    var below := [Component(b, None)];
    KeyRenders(path, b);
    hide ParseSegments, Split, SelectPath, Render, TokensOf, Gives, GivesAll, Extract, JoinPath, PlainPath;
    TwoHoldersGive(Render(path), b, x, y);
    PathBelowParses(path, below);
    BelowArray(data, path, [Obj(map[b := x]), Obj(map[b := y])], below);
  }

  lemma TwoHoldersGive(a: string, b: string, x: Json, y: Json)
    requires PlainKey(b) && !x.Arr? && !y.Arr?
    ensures GivesAll([Obj(map[b := x]), Obj(map[b := y])], a, [Component(b, None)])
            == [ExtractedValue(x, JoinPath(a, b), RootPath(a)), ExtractedValue(y, JoinPath(a, b), RootPath(a))]
  {
    hide Gives, GivesAll, JoinPath, PlainKey;
    TwoGive(Obj(map[b := x]), Obj(map[b := y]), a, [Component(b, None)]);
    ValueGiven(Obj(map[b := x]), a, b, x);
    ValueGiven(Obj(map[b := y]), a, b, y);
  }

  lemma TwoGive(first: Json, second: Json, a: string, below: seq<Component>)
    requires below != []
    ensures GivesAll([first, second], a, below) == Gives(first, a, below) + Gives(second, a, below)
  {
    hide Gives;
    assert [first, second][..1] == [first] && [first][..0] == [];
    assert GivesAll([first], a, below) == [] + Gives(first, a, below);
  }
}
