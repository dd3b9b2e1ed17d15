/** resolveLocalRef: the JSON-pointer walk of pkg/agent/llm_tool_schema.go, and its
    inverse, the pointer syntax of sections 3 and 4 of RFC 6901. */
module JsonPointer {
  import opened Wrappers
  import opened Text
  import opened Json

  // ------------------------------------------------------------- the walk

  /** strings.ReplaceAll(s, "~" + code, with), scanning left to right. */
  function ReplacePair(s: string, code: char, with: char): string {
    if s == [] then []
    else if |s| >= 2 && s[0] == '~' && s[1] == code then [with] + ReplacePair(s[2..], code, with)
    else [s[0]] + ReplacePair(s[1..], code, with)
  }

  /** The two passes, in the source's order: first "~1" to "/", then "~0" to "~". */
  function UnescapeSegment(segment: string): string {
    ReplacePair(ReplacePair(segment, '1', '/'), '0', '~')
  }

  function Child(node: Json, segment: string): Option<Json> {
    match node
    case Obj(fields) => if segment in fields then Some(fields[segment]) else None
    case Arr(items) =>
      (match Atoi(segment)
       case Some(i) => if 0 <= i < |items| then Some(items[i]) else None
       case None => None)
    case _ => None
  }

  function Walk(node: Json, segments: seq<string>): Option<Json> {
    if segments == [] then Some(node)
    else
      match Child(node, UnescapeSegment(segments[0]))
      case Some(next) => Walk(next, segments[1..])
      case None => None
  }

  function ResolveLocalRef(root: map<string, Json>, pointer: string): Option<Json> {
    Walk(Obj(root), Split(pointer, '/'))
  }

  /** The source's loop: `current` advances one segment at a time. */
  method ResolvePointer(root: map<string, Json>, pointer: string) returns (found: Option<Json>)
    ensures found == ResolveLocalRef(root, pointer)
  {
    var current := Obj(root);
    var segments := Split(pointer, '/');
    for n := 0 to |segments|
      invariant Walk(current, segments[n..]) == ResolveLocalRef(root, pointer)
    {
      var segment := UnescapeSegment(segments[n]);
      match current {
        case Obj(fields) =>
          if segment !in fields {
            return None;
          }
          current := fields[segment];
        case Arr(items) =>
          var index := Atoi(segment);
          if index.None? || index.value < 0 || index.value >= |items| {
            return None;
          }
          current := items[index.value];
        case _ =>
          return None;
      }
    }
    found := Some(current);
  }

  // ---------------------------------------------- documents seen as paths

  datatype Token = Key(name: string) | Index(i: nat)

  /** `path` names a node of `node`, through existing keys and in-range indices. */
  predicate ValidPath(node: Json, path: seq<Token>) {
    path == [] ||
    match (path[0], node)
    case (Key(name), Obj(fields)) => name in fields && ValidPath(fields[name], path[1..])
    case (Index(i), Arr(items)) => i < |items| && i <= MAX_INT64 && ValidPath(items[i], path[1..])
    case _ => false
  }

  function At(node: Json, path: seq<Token>): Json
    requires ValidPath(node, path)
  {
    if path == [] then node
    else
      match path[0]
      case Key(name) => At(node.fields[name], path[1..])
      case Index(i) => At(node.items[i], path[1..])
  }

  /** RFC 6901 section 3: "~" is written "~0" and "/" is written "~1". */
  function Escape(key: string): string {
    if key == [] then []
    else (if key[0] == '~' then "~0" else if key[0] == '/' then "~1" else [key[0]]) + Escape(key[1..])
  }

  function EscapeToken(token: Token): string {
    match token
    case Key(name) => Escape(name)
    case Index(i) => Itoa(i)
  }

  function EscapeAll(path: seq<Token>): (segments: seq<string>)
    ensures |segments| == |path|
  {
    if path == [] then [] else [EscapeToken(path[0])] + EscapeAll(path[1..])
  }

  function Encode(path: seq<Token>): string
    requires path != []
  {
    Join(EscapeAll(path), '/')
  }

  // -------------------------------------------------------- the round trip

  /** What is left after the first pass: only the tildes are still escaped. */
  function EscapeTildes(key: string): string {
    if key == [] then [] else (if key[0] == '~' then "~0" else [key[0]]) + EscapeTildes(key[1..])
  }

  lemma {:induction false} FirstPass(key: string)
    ensures ReplacePair(Escape(key), '1', '/') == EscapeTildes(key)
  {
    if key != [] {
      FirstPass(key[1..]);
      var rest := Escape(key[1..]);
      if key[0] == '~' {
        assert ("~0" + rest)[1..] == "0" + rest;
        assert ("0" + rest)[1..] == rest;
      } else if key[0] == '/' {
        assert ("~1" + rest)[2..] == rest;
      } else {
        assert ([key[0]] + rest)[1..] == rest;
      }
    }
  }

  lemma {:induction false} SecondPass(key: string)
    ensures ReplacePair(EscapeTildes(key), '0', '~') == key
  {
    if key != [] {
      SecondPass(key[1..]);
      var rest := EscapeTildes(key[1..]);
      if key[0] == '~' {
        assert ("~0" + rest)[2..] == rest;
      } else {
        assert ([key[0]] + rest)[1..] == rest;
      }
    }
  }

  lemma UnescapeEscape(key: string)
    ensures UnescapeSegment(Escape(key)) == key
  {
    FirstPass(key);
    SecondPass(key);
  }

  lemma {:induction false} NoPairsToReplace(s: string, code: char, with: char)
    requires '~' !in s
    ensures ReplacePair(s, code, with) == s
  {
    if s != [] {
      assert s[0] in s && [s[0]] + s[1..] == s;
      NoPairsToReplace(s[1..], code, with);
    }
  }

  lemma {:induction false} EscapeHasNoSlash(key: string)
    ensures '/' !in Escape(key)
  {
    if key != [] {
      EscapeHasNoSlash(key[1..]);
    }
  }

  lemma {:induction false} EscapeAllHasNoSlash(path: seq<Token>)
    ensures forall i | 0 <= i < |path| :: '/' !in EscapeAll(path)[i]
  {
    if path != [] {
      EscapeAllHasNoSlash(path[1..]);
      match path[0]
      case Key(name) => EscapeHasNoSlash(name);
      case Index(i) =>
    }
  }

  lemma {:induction false} WalkReaches(node: Json, path: seq<Token>)
    requires ValidPath(node, path)
    ensures Walk(node, EscapeAll(path)) == Some(At(node, path))
  {
    if path != [] {
      assert EscapeAll(path)[1..] == EscapeAll(path[1..]);
      match path[0]
      case Key(name) =>
        UnescapeEscape(name);
        WalkReaches(node.fields[name], path[1..]);
      case Index(i) =>
        NoPairsToReplace(Itoa(i), '1', '/');
        NoPairsToReplace(Itoa(i), '0', '~');
        AtoiItoa(i);
        WalkReaches(node.items[i], path[1..]);
    }
  }

  /** Writing a path as a pointer and resolving it reaches exactly the node at that path. */
  lemma RoundTrip(root: map<string, Json>, path: seq<Token>)
    requires path != [] && ValidPath(Obj(root), path)
    ensures ResolveLocalRef(root, Encode(path)) == Some(At(Obj(root), path))
  {
    EscapeAllHasNoSlash(path);
    SplitJoin(EscapeAll(path), '/');
    WalkReaches(Obj(root), path);
  }

  /** The segments spell the tokens: a key unescaped, an index in decimal. */
  predicate Decodes(segments: seq<string>, path: seq<Token>) {
    && |segments| == |path|
    && forall i | 0 <= i < |path| ::
         match path[i]
         case Key(name) => UnescapeSegment(segments[i]) == name
         case Index(n) => Atoi(UnescapeSegment(segments[i])) == Some(n)
  }

  lemma {:induction false} WalkSound(node: Json, segments: seq<string>) returns (path: seq<Token>)
    requires Walk(node, segments).Some?
    ensures |path| == |segments|
    ensures ValidPath(node, path) && Walk(node, segments) == Some(At(node, path))
    ensures Decodes(segments, path)
  {
    if segments == [] {
      path := [];
    } else {
      var segment := UnescapeSegment(segments[0]);
      var rest := WalkSound(Child(node, segment).value, segments[1..]);
      path := [if node.Obj? then Key(segment) else Index(Atoi(segment).value)] + rest;
      assert path[1..] == rest;
    }
  }

  /** Whatever a pointer resolves to is at a path its segments spell. */
  lemma ResolvedPath(root: map<string, Json>, pointer: string) returns (path: seq<Token>)
    requires ResolveLocalRef(root, pointer).Some?
    ensures path != [] && ValidPath(Obj(root), path) && Decodes(Split(pointer, '/'), path)
    ensures ResolveLocalRef(root, pointer) == Some(At(Obj(root), path))
  {
    path := WalkSound(Obj(root), Split(pointer, '/'));
  }

  /** Whatever a pointer resolves to is a node of the document: nothing is invented, and
      the empty pointer names the member "" rather than the document itself. */
  lemma ResolvesOnlyToNodes(root: map<string, Json>, pointer: string) returns (path: seq<Token>)
    requires ResolveLocalRef(root, pointer).Some?
    ensures path != [] && ValidPath(Obj(root), path)
    ensures ResolveLocalRef(root, pointer) == Some(At(Obj(root), path))
    ensures pointer == "" ==> path == [Key("")]
  {
    path := WalkSound(Obj(root), Split(pointer, '/'));
    NoPairsToReplace("", '1', '/');
    assert path[0].Key?;
  }
}
