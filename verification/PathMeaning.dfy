/** What a plain path means: the values a document holds at it, and nothing when it holds none. */
module PathMeaning {
  import opened Wrappers
  import opened Text
  import opened Json
  import opened PathExtraction
  import opened PathExtractionProperties
  import ArrayPathProperties

  /** No proper prefix of the path names an array, so nothing spreads out on the way. */
  predicate NoArrayOnTheWay(data: Json, path: seq<Component>) {
    forall n | 0 <= n < |path| :: SelectPath(data, path[..n]).Some? ==> !SelectPath(data, path[..n]).value.Arr?
  }

  /** The values at a place: each element of an array under its own subscript, any other value
      once, and nothing where there is none. */
  function ValuesAt(found: Option<Json>, path: string, holder: string): seq<ExtractedValue> {
    match found
    case None => []
    case Some(Arr(items)) =>
      seq(|items|, i requires 0 <= i < |items| =>
            ExtractedValue(items[i], path + "[" + Itoa(i) + "]", if path == "" then "$" else path))
    case Some(v) => [ExtractedValue(v, path, holder)]
  }

  /** The path of what holds the last component: the root is written "$", and an element is held by
      the array its key names. */
  function Holder(path: seq<Component>): string
    requires path != []
  {
    var before, last := Render(path[..|path| - 1]), path[|path| - 1];
    var holder := if last.index.None? then before else if before == "" then last.key else before + "." + last.key;
    if holder == "" then "$" else holder
  }

  /** Extraction by a plain path that meets no array on its way gives exactly the values at that
      path: nothing when a key is missing, an index lies past the end of its array or the path
      goes on below a scalar. (Below an array it gives what the elements give, see BelowArray.) */
  lemma PathExtracts(data: Json, path: seq<Component>)
    requires PlainPath(path) && path != [] && NoArrayOnTheWay(data, path)
    ensures ParseSegments(Split(Render(path), '.')) == Some(TokensOf(path))
    ensures Extract(data, TokensOf(path)) == Some(ValuesAt(SelectPath(data, path), Render(path), Holder(path)))
  {
    RenderedPathParses(path);
    var root := Node(data, "", "");
    if SelectPath(data, path).None? {
      hide ParseSegments, Split, PlainPath, NoArrayOnTheWay, Walk, Descend, SelectPath, Render, TokensOf, Holder;
      MissingIsWalked(data, path);
      WalkIsDescent(root, TokensOf(path));
      ArrayPathProperties.OpenedNothing();
    } else {
      hide ParseSegments, Split, PlainPath, NoArrayOnTheWay, Walk, Descend, SelectPath, Render, TokensOf, Holder, ContextOf;
      LocatedIsWalked(data, path);
      WalkIsDescent(root, TokensOf(path));
      HolderIsContext(path);
      var node := Node(SelectPath(data, path).value, Render(path), ContextOf(path));
      ArrayPathProperties.OpenedOne(node);
      OpenIsValues(node);
    }
  }

  lemma HolderIsContext(path: seq<Component>)
    requires path != [] && PlainPath(path)
    ensures Holder(path) == ContextOf(path)
  {
    hide Render;
    var last := path[|path| - 1];
    PlainIsNotEmpty(last.key);
    NoLeadingBracket(last.key);
  }

  lemma NoLeadingBracket(key: string)
    requires PlainKey(key)
    ensures key[0] != '['
  {
    assert key[0] in key;
  }

  lemma OpenIsValues(node: Node)
    ensures Open(node) == ValuesAt(Some(node.value), node.path, node.context)
  {
    hide Itoa;
    if node.value.Arr? {
      forall i | 0 <= i < |node.value.items| ensures node.path + Subscript(i) == node.path + "[" + Itoa(i) + "]" {
      }
    }
  }

  lemma {:induction false} MissingIsWalked(data: Json, path: seq<Component>)
    requires PlainPath(path) && path != [] && NoArrayOnTheWay(data, path) && SelectPath(data, path).None?
    ensures Walk([Node(data, "", "")], TokensOf(path)) == Some([])
    decreases |path|
  {
    var n := |path| - 1;
    var root, t := Node(data, "", ""), TokenOf(path[n]);
    PrefixHasNoArray(data, path);
    var before := path[..n];
    assert PlainPath(before) && PlainKey(path[n].key);
    hide Step, Walk, PlainPath, PlainKey, NoArrayOnTheWay, Render;
    WalkComposes([root], TokensOf(before), [t]);
    if SelectPath(data, before).None? {
      MissingIsWalked(data, before);
      WalkNothing([t]);
    } else {
      var holder := if n == 0 then root else Node(SelectPath(data, before).value, Render(before), ContextOf(before));
      if n == 0 {
        assert before == [];
        assert Walk([root], []) == Some([root]);
      } else {
        LocatedIsWalked(data, before);
      }
      MissingStep(holder, path[n]);
      WalkOne(holder, t);
    }
  }

  lemma PrefixHasNoArray(data: Json, path: seq<Component>)
    requires path != [] && NoArrayOnTheWay(data, path)
    ensures NoArrayOnTheWay(data, path[..|path| - 1])
    ensures var before := SelectPath(data, path[..|path| - 1]); before.Some? ==> !before.value.Arr?
  {
    hide SelectPath;
    var last := |path| - 1;
    forall n | 0 <= n < last
      ensures SelectPath(data, path[..last][..n]).Some? ==> !SelectPath(data, path[..last][..n]).value.Arr?
    {
      assert path[..last][..n] == path[..n];
    }
    assert 0 <= last < |path|;
  }

  lemma MissingStep(holder: Node, c: Component)
    requires !holder.value.Arr? && PlainKey(c.key) && Select(holder.value, c).None?
    ensures Step(holder, TokenOf(c)) == Some([])
  {
    PlainIsNotEmpty(c.key);
    hide PlainKey;
  }

  /** `key[*]` on an object gives every element of the array under the key, and nothing when there
      is no array under it. */
  lemma AllUnderKey(node: Node, key: string)
    requires node.value.Obj? && key != ""
    ensures var t := EMPTY_TOKEN.(key := key, isArray := true);
            var fields := node.value.fields;
            Step(node, t) ==
              if key in fields && fields[key].Arr? then
                Some(seq(|fields[key].items|, i requires 0 <= i < |fields[key].items| =>
                           Node(fields[key].items[i], JoinPath(node.path, key + "[" + Itoa(i) + "]"), RootPath(JoinPath(node.path, key)))))
              else Some([])
  {
    hide JoinPath, RootPath, Itoa;
    if key in node.value.fields && node.value.fields[key].Arr? {
      ElementsUnder(node, node.value.fields[key].items, key, JoinPath(node.path, key));
    }
  }

  lemma ElementsUnder(node: Node, items: seq<Json>, key: string, parentPath: string)
    ensures Elements(node, items, key, parentPath)
            == seq(|items|, i requires 0 <= i < |items| =>
                     Node(items[i], JoinPath(node.path, key + "[" + Itoa(i) + "]"), RootPath(parentPath)))
  {
    hide JoinPath, RootPath, Itoa;
    forall i | 0 <= i < |items| ensures key + Subscript(i) == key + "[" + Itoa(i) + "]" {
    }
  }
}
