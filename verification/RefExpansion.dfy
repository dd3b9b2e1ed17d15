/** Local "$ref" expansion (pkg/agent/tool_policy.go): the recursive rewriting that replaces
    {"$ref": "#/..."} nodes by the subschema they point at, with a cycle stack and a depth bound. */
module RefExpansion {
  import opened Wrappers
  import opened Text
  import opened Json
  import opened JsonPointer

  const MAX_ARGS_DEPTH := 16
  const MAX_DEPTH := MAX_ARGS_DEPTH * 4

  datatype Reference = NoReference | Unsupported | Local(target: string)

  /** How an object node reads as a reference; a null "$ref" is no reference. */
  function ReferenceOf(fields: map<string, Json>): (reference: Reference)
    ensures reference.NoReference? <==> "$ref" !in fields || fields["$ref"].Null?
  {
    if "$ref" !in fields || fields["$ref"].Null? then NoReference
    else
      match fields["$ref"]
      case Str(raw) => if HasPrefix(TrimSpace(raw), "#") then Local(TrimSpace(raw)) else Unsupported
      case _ => Unsupported
  }

  function Target(root: Json, target: string): Option<Json> {
    if target == "#" then Some(root)
    else ResolveLocalRef(if root.Obj? then root.fields else map[], TrimPrefix(target, "#/"))
  }

  function CollectItems(parts: seq<Option<Json>>): Option<Json> {
    if forall i | 0 <= i < |parts| :: parts[i].Some? then
      Some(Arr(seq(|parts|, i requires 0 <= i < |parts| => parts[i].value)))
    else None
  }

  function CollectFields(parts: map<string, Option<Json>>): Option<Json> {
    if forall k | k in parts :: parts[k].Some? then Some(Obj(map k | k in parts :: parts[k].value)) else None
  }

  /** expandLocalRefsAt. Go ranges over maps in any order, so only failure itself is
      modelled, not which of several failing members is reported. */
  function Expand(node: Json, root: Json, stack: set<string>, depth: nat): Option<Json>
    decreases MAX_DEPTH + 1 - depth, node
  {
    if depth > MAX_DEPTH then None
    else
      match node
      case Arr(items) => CollectItems(ExpandItems(items, root, stack, depth))
      case Obj(fields) =>
        (match ReferenceOf(fields)
         case Unsupported => None
         case Local(target) =>
           if target in stack || Target(root, target).None? then None
           else Expand(Target(root, target).value, root, stack + {target}, depth + 1)
         case NoReference => CollectFields(ExpandFields(fields, root, stack, depth)))
      case _ => Some(node)
  }

  function ExpandItems(items: seq<Json>, root: Json, stack: set<string>, depth: nat): seq<Option<Json>>
    requires depth <= MAX_DEPTH
    decreases MAX_DEPTH - depth, Arr(items)
  {
    seq(|items|, i requires 0 <= i < |items| => Expand(items[i], root, stack, depth + 1))
  }

  function ExpandFields(fields: map<string, Json>, root: Json, stack: set<string>, depth: nat): map<string, Option<Json>>
    requires depth <= MAX_DEPTH
    decreases MAX_DEPTH - depth, Obj(fields)
  {
    map k | k in fields :: Expand(fields[k], root, stack, depth + 1)
  }

  /** The same rewriting with no cycle stack: the depth bound alone stops it. */
  function ExpandByDepth(node: Json, root: Json, depth: nat): Option<Json>
    decreases MAX_DEPTH + 1 - depth, node
  {
    if depth > MAX_DEPTH then None
    else
      match node
      case Arr(items) => CollectItems(ItemsByDepth(items, root, depth))
      case Obj(fields) =>
        (match ReferenceOf(fields)
         case Unsupported => None
         case Local(target) =>
           if Target(root, target).None? then None
           else ExpandByDepth(Target(root, target).value, root, depth + 1)
         case NoReference => CollectFields(FieldsByDepth(fields, root, depth)))
      case _ => Some(node)
  }

  function ItemsByDepth(items: seq<Json>, root: Json, depth: nat): seq<Option<Json>>
    requires depth <= MAX_DEPTH
    decreases MAX_DEPTH - depth, Arr(items)
  {
    seq(|items|, i requires 0 <= i < |items| => ExpandByDepth(items[i], root, depth + 1))
  }

  function FieldsByDepth(fields: map<string, Json>, root: Json, depth: nat): map<string, Option<Json>>
    requires depth <= MAX_DEPTH
    decreases MAX_DEPTH - depth, Obj(fields)
  {
    map k | k in fields :: ExpandByDepth(fields[k], root, depth + 1)
  }

  /** expandLocalRefs: the root must still be an object afterwards. */
  function ExpandLocalRefs(schema: map<string, Json>): Option<map<string, Json>> {
    match Expand(Obj(schema), Obj(schema), {}, 0)
    case Some(Obj(fields)) => Some(fields)
    case _ => None
  }

  // ------------------------------------------- containers, member by member

  /** `out` is `node` with every member replaced by its expansion; absent iff one fails. */
  predicate Memberwise(node: Json, out: Option<Json>, expand: Json -> Option<Json>) {
    match node
    case Arr(items) =>
      && (out.Some? <==> forall i | 0 <= i < |items| :: expand(items[i]).Some?)
      && (out.Some? ==> out.value.Arr? && |out.value.items| == |items|
                        && forall i | 0 <= i < |items| :: expand(items[i]) == Some(out.value.items[i]))
    case Obj(fields) =>
      && (out.Some? <==> forall k | k in fields :: expand(fields[k]).Some?)
      && (out.Some? ==> out.value.Obj? && out.value.fields.Keys == fields.Keys
                        && forall k | k in fields :: expand(fields[k]) == Some(out.value.fields[k]))
    case _ => out == Some(node)
  }

  /** An object with a "$ref" other than null. */
  predicate IsReference(node: Json) {
    node.Obj? && "$ref" in node.fields && !node.fields["$ref"].Null?
  }

  lemma ExpandMembers(node: Json, root: Json, stack: set<string>, depth: nat)
    requires depth <= MAX_DEPTH && !IsReference(node)
    ensures Memberwise(node, Expand(node, root, stack, depth), n => Expand(n, root, stack, depth + 1))
  {
    hide Target, ReferenceOf;
    match node
    case Arr(items) =>
      var parts := ExpandItems(items, root, stack, depth);
      assert forall i | 0 <= i < |items| :: parts[i] == Expand(items[i], root, stack, depth + 1);
    case Obj(fields) =>
      var parts := ExpandFields(fields, root, stack, depth);
      assert forall k | k in fields :: k in parts && parts[k] == Expand(fields[k], root, stack, depth + 1);
    case _ =>
  }

  lemma ByDepthMembers(node: Json, root: Json, depth: nat)
    requires depth <= MAX_DEPTH && !IsReference(node)
    ensures Memberwise(node, ExpandByDepth(node, root, depth), n => ExpandByDepth(n, root, depth + 1))
  {
    hide Target, ReferenceOf;
    match node
    case Arr(items) =>
      var parts := ItemsByDepth(items, root, depth);
      assert forall i | 0 <= i < |items| :: parts[i] == ExpandByDepth(items[i], root, depth + 1);
    case Obj(fields) =>
      var parts := FieldsByDepth(fields, root, depth);
      assert forall k | k in fields :: k in parts && parts[k] == ExpandByDepth(fields[k], root, depth + 1);
    case _ =>
  }

  // --------------------------------------------------- the imperative form

  /** The shared map[string]bool of targets being expanded. */
  class RefStack {
    var active: set<string>

    constructor ()
      ensures active == {}
    {
      active := {};
    }
  }

  /** One call sets and deletes entries of the shared stack, yet leaves it exactly as it
      found it, on success and on failure alike. */
  method ExpandLocalRefsAt(node: Json, root: Json, stack: RefStack, depth: nat) returns (out: Option<Json>)
    modifies stack
    ensures stack.active == old(stack.active)
    ensures out == Expand(node, root, old(stack.active), depth)
    decreases MAX_DEPTH + 1 - depth, 1
  {
    if depth > MAX_DEPTH {
      return None;
    }
    if node.Arr? {
      out := ExpandList(node.items, root, stack, depth);
    } else if !node.Obj? {
      out := Some(node);
    } else {
      match ReferenceOf(node.fields) {
        case Unsupported =>
          out := None;
        case Local(target) =>
          var resolved := Target(root, target);
          if target in stack.active || resolved.None? {
            return None;
          }
          stack.active := stack.active + {target};
          out := ExpandLocalRefsAt(resolved.value, root, stack, depth + 1);
          stack.active := stack.active - {target};
        case NoReference =>
          out := ExpandObject(node.fields, root, stack, depth);
      }
    }
  }

  method ExpandList(items: seq<Json>, root: Json, stack: RefStack, depth: nat) returns (out: Option<Json>)
    requires depth <= MAX_DEPTH
    modifies stack
    ensures stack.active == old(stack.active)
    ensures out == CollectItems(ExpandItems(items, root, old(stack.active), depth))
    decreases MAX_DEPTH + 1 - depth, 0
  {
    ghost var parts := ExpandItems(items, root, stack.active, depth);
    var list: seq<Json> := [];
    for i := 0 to |items|
      invariant stack.active == old(stack.active)
      invariant |list| == i && forall j | 0 <= j < i :: parts[j] == Some(list[j])
    {
      var expanded := ExpandLocalRefsAt(items[i], root, stack, depth + 1);
      assert parts[i] == expanded;
      if expanded.None? {
        return None;
      }
      list := list + [expanded.value];
    }
    out := Some(Arr(list));
    assert list == CollectItems(parts).value.items;
  }

  method ExpandObject(fields: map<string, Json>, root: Json, stack: RefStack, depth: nat) returns (out: Option<Json>)
    requires depth <= MAX_DEPTH
    modifies stack
    ensures stack.active == old(stack.active)
    ensures out == CollectFields(ExpandFields(fields, root, old(stack.active), depth))
    decreases MAX_DEPTH + 1 - depth, 0
  {
    hide Expand, ExpandItems, ReferenceOf, Target;
    ghost var parts := ExpandFields(fields, root, stack.active, depth);
    var members: map<string, Json> := map[];
    var pending := fields.Keys;
    while pending != {}
      invariant stack.active == old(stack.active)
      invariant pending <= fields.Keys && members.Keys == fields.Keys - pending
      invariant forall k | k in members :: parts[k] == Some(members[k])
      decreases |pending|
    {
      var key :| key in pending;
      var expanded := ExpandLocalRefsAt(fields[key], root, stack, depth + 1);
      assert parts[key] == expanded;
      if expanded.None? {
        return None;
      }
      members := members[key := expanded.value];
      pending := pending - {key};
    }
    out := Some(Obj(members));
    Collected(parts, members);
  }

  lemma Collected(parts: map<string, Option<Json>>, members: map<string, Json>)
    requires parts.Keys == members.Keys && forall k | k in members :: parts[k] == Some(members[k])
    ensures CollectFields(parts) == Some(Obj(members))
  {
    assert members == map k | k in parts :: parts[k].value;
  }

  // ------------------------------- the cycle stack never changes an outcome

  predicate IsMember(m: Json, node: Json) {
    match node
    case Arr(items) => exists i :: 0 <= i < |items| && items[i] == m
    case Obj(fields) => exists k :: k in fields && fields[k] == m
    case _ => false
  }

  lemma MemberwiseDetermines(node: Json, a: Option<Json>, f: Json -> Option<Json>, b: Option<Json>, g: Json -> Option<Json>)
    requires Memberwise(node, a, f) && Memberwise(node, b, g)
    requires forall m | IsMember(m, node) :: f(m) == g(m)
    ensures a == b
  {
    match node
    case Arr(items) =>
      assert forall i | 0 <= i < |items| :: IsMember(items[i], node);
      if a.Some? {
        assert a.value.items == b.value.items;
      }
    case Obj(fields) =>
      assert forall k | k in fields :: IsMember(fields[k], node);
      if a.Some? {
        assert a.value.fields == b.value.fields;
      }
    case _ =>
  }

  /** `m` is expanded as a direct part of expanding `n`. */
  predicate Step(n: Json, m: Json, root: Json) {
    if IsReference(n) then
      ReferenceOf(n.fields).Local? && Target(root, ReferenceOf(n.fields).target) == Some(m)
    else IsMember(m, n)
  }

  predicate Trail(trail: seq<Json>, root: Json) {
    trail != [] && forall i | 0 <= i < |trail| - 1 :: Step(trail[i], trail[i + 1], root)
  }

  predicate RefersTo(node: Json, target: string) {
    node.Obj? && ReferenceOf(node.fields) == Local(target)
  }

  /** Every target on the stack was followed earlier on the trail. */
  predicate FollowedOn(stack: set<string>, trail: seq<Json>) {
    forall t | t in stack :: exists i :: 0 <= i < |trail| - 1 && RefersTo(trail[i], t)
  }

  lemma {:induction false} FailureTravelsBack(trail: seq<Json>, root: Json, depth: nat)
    requires Trail(trail, root)
    requires ExpandByDepth(trail[|trail| - 1], root, depth + |trail| - 1).None?
    ensures ExpandByDepth(trail[0], root, depth).None?
    decreases |trail|
  {
    hide Target, ReferenceOf, ItemsByDepth, FieldsByDepth;
    if |trail| > 1 && depth <= MAX_DEPTH {
      assert Step(trail[0], trail[1], root);
      FailureTravelsBack(trail[1..], root, depth + 1);
      if !IsReference(trail[0]) {
        ByDepthMembers(trail[0], root, depth);
      }
    }
  }

  /** A node that is part of its own expansion fails at every depth. */
  lemma {:induction false} CycleFails(trail: seq<Json>, root: Json, depth: nat)
    requires Trail(trail, root) && |trail| > 1 && trail[0] == trail[|trail| - 1]
    ensures ExpandByDepth(trail[0], root, depth).None?
    decreases MAX_DEPTH + 1 - depth
  {
    if depth <= MAX_DEPTH {
      CycleFails(trail, root, depth + |trail| - 1);
      FailureTravelsBack(trail, root, depth);
    }
  }

  lemma ClosedTrail(trail: seq<Json>, root: Json, i: nat, next: Json)
    requires Trail(trail, root) && i < |trail|
    requires Step(trail[|trail| - 1], next, root)
    ensures Trail(trail[i..] + [next], root)
  {
    var cycle := trail[i..] + [next];
    forall j | 0 <= j < |cycle| - 1 ensures Step(cycle[j], cycle[j + 1], root) {
      if j < |cycle| - 2 {
        assert cycle[j] == trail[i + j] && cycle[j + 1] == trail[i + j + 1];
      }
    }
  }

  lemma StackHitFails(trail: seq<Json>, root: Json, target: string, depth: nat)
    requires Trail(trail, root) && RefersTo(trail[|trail| - 1], target)
    requires exists i :: 0 <= i < |trail| - 1 && RefersTo(trail[i], target)
    ensures ExpandByDepth(trail[|trail| - 1], root, depth).None?
  {
    hide Target, ReferenceOf;
    var i :| 0 <= i < |trail| - 1 && RefersTo(trail[i], target);
    var resolved := trail[i + 1];
    assert Step(trail[i], resolved, root);
    ClosedTrail(trail, root, i + 1, resolved);
    CycleFails(trail[i + 1..] + [resolved], root, depth + 1);
  }

  lemma ExtendTrail(trail: seq<Json>, next: Json, root: Json, stack: set<string>)
    requires Trail(trail, root) && Step(trail[|trail| - 1], next, root)
    requires FollowedOn(stack, trail)
    ensures Trail(trail + [next], root) && FollowedOn(stack, trail + [next])
  {
    forall t | t in stack ensures exists i :: 0 <= i < |trail + [next]| - 1 && RefersTo((trail + [next])[i], t) {
      var i :| 0 <= i < |trail| - 1 && RefersTo(trail[i], t);
      assert RefersTo((trail + [next])[i], t);
    }
  }

  lemma {:induction false} StackIsRedundantAt(node: Json, root: Json, stack: set<string>, depth: nat, trail: seq<Json>)
    requires Trail(trail, root) && trail[|trail| - 1] == node
    requires FollowedOn(stack, trail)
    ensures Expand(node, root, stack, depth) == ExpandByDepth(node, root, depth)
    decreases MAX_DEPTH + 1 - depth
  {
    hide Target, ReferenceOf, Memberwise;
    if depth <= MAX_DEPTH && !IsReference(node) {
      forall m | IsMember(m, node) ensures Expand(m, root, stack, depth + 1) == ExpandByDepth(m, root, depth + 1) {
        ExtendTrail(trail, m, root, stack);
        StackIsRedundantAt(m, root, stack, depth + 1, trail + [m]);
      }
      ExpandMembers(node, root, stack, depth);
      ByDepthMembers(node, root, depth);
      MemberwiseDetermines(
        node,
        Expand(node, root, stack, depth), n => Expand(n, root, stack, depth + 1),
        ExpandByDepth(node, root, depth), n => ExpandByDepth(n, root, depth + 1));
    } else if depth <= MAX_DEPTH && ReferenceOf(node.fields).Local? {
      var target := ReferenceOf(node.fields).target;
      if target in stack {
        StackHitFails(trail, root, target, depth);
      } else if Target(root, target).Some? {
        var resolved := Target(root, target).value;
        ExtendTrail(trail, resolved, root, stack);
        assert RefersTo((trail + [resolved])[|trail| - 1], target);
        StackIsRedundantAt(resolved, root, stack + {target}, depth + 1, trail + [resolved]);
      }
    }
  }

  /** Dropping the cycle stack changes no outcome: for every node and document both forms
      succeed with the same tree or both fail. The stack only reports cycles earlier. */
  lemma StackIsRedundant(node: Json, root: Json, depth: nat)
    ensures Expand(node, root, {}, depth) == ExpandByDepth(node, root, depth)
  {
    StackIsRedundantAt(node, root, {}, depth, [node]);
  }

  // -------------------------------------- what a successful expansion yields

  /** No object in the tree has a non-null "$ref". */
  predicate RefFree(j: Json) {
    !IsReference(j) &&
    match j
    case Arr(items) => forall i | 0 <= i < |items| :: RefFree(items[i])
    case Obj(fields) => forall k | k in fields :: RefFree(fields[k])
    case _ => true
  }

  /** Expanding the members of an object without "$ref" brings none in. */
  lemma NoReferenceStays(node: Json, root: Json, depth: nat)
    requires node.Obj? && !IsReference(node) && ExpandByDepth(node, root, depth).Some?
    ensures !IsReference(ExpandByDepth(node, root, depth).value)
  {
    ByDepthMembers(node, root, depth);
    hide Target, TrimSpace, HasPrefix;
    if "$ref" in node.fields {
      assert ExpandByDepth(node.fields["$ref"], root, depth + 1) == Some(Null);
    }
  }

  lemma {:induction false} ExpansionIsRefFree(node: Json, root: Json, depth: nat)
    requires ExpandByDepth(node, root, depth).Some?
    ensures RefFree(ExpandByDepth(node, root, depth).value)
    decreases MAX_DEPTH + 1 - depth
  {
    hide Target, ReferenceOf;
    if IsReference(node) {
      ExpansionIsRefFree(Target(root, ReferenceOf(node.fields).target).value, root, depth + 1);
    } else {
      ByDepthMembers(node, root, depth);
      forall m | IsMember(m, node) && ExpandByDepth(m, root, depth + 1).Some?
        ensures RefFree(ExpandByDepth(m, root, depth + 1).value)
      {
        ExpansionIsRefFree(m, root, depth + 1);
      }
      if node.Arr? {
        assert forall i | 0 <= i < |node.items| :: IsMember(node.items[i], node);
      } else if node.Obj? {
        assert forall k | k in node.fields :: IsMember(node.fields[k], node);
        NoReferenceStays(node, root, depth);
      }
    }
  }

  /** The start depth plus the height of the result never exceeds the bound. */
  lemma {:induction false} ExpansionFitsBound(node: Json, root: Json, depth: nat)
    requires ExpandByDepth(node, root, depth).Some?
    ensures HeightAtMost(ExpandByDepth(node, root, depth).value, MAX_DEPTH - depth)
    decreases MAX_DEPTH + 1 - depth
  {
    hide Target, ReferenceOf, ItemsByDepth, FieldsByDepth, CollectItems, CollectFields;
    if IsReference(node) {
      ExpansionFitsBound(Target(root, ReferenceOf(node.fields).target).value, root, depth + 1);
      HeightMonotone(ExpandByDepth(node, root, depth).value, MAX_DEPTH - depth - 1, MAX_DEPTH - depth);
    } else {
      ByDepthMembers(node, root, depth);
      forall m | IsMember(m, node) && ExpandByDepth(m, root, depth + 1).Some?
        ensures HeightAtMost(ExpandByDepth(m, root, depth + 1).value, MAX_DEPTH - depth - 1)
      {
        ExpansionFitsBound(m, root, depth + 1);
      }
      if node.Arr? {
        assert forall i | 0 <= i < |node.items| :: IsMember(node.items[i], node);
      } else if node.Obj? {
        assert forall k | k in node.fields :: IsMember(node.fields[k], node);
      }
    }
  }

  /** What a tree without references expands to: itself if it fits, else nothing. */
  function Fixed(node: Json, depth: nat): Option<Json> {
    if HeightAtMost(node, MAX_DEPTH - depth) then Some(node) else None
  }

  lemma {:induction false} RefFreeIsFixed(node: Json, root: Json, depth: nat)
    requires RefFree(node)
    ensures ExpandByDepth(node, root, depth) == Fixed(node, depth)
    decreases MAX_DEPTH + 1 - depth
  {
    hide Target, ReferenceOf, ItemsByDepth, FieldsByDepth, CollectItems, CollectFields;
    if depth <= MAX_DEPTH {
      ByDepthMembers(node, root, depth);
      forall m | IsMember(m, node) ensures ExpandByDepth(m, root, depth + 1) == Fixed(m, depth + 1) {
        RefFreeIsFixed(m, root, depth + 1);
      }
      MemberwiseDetermines(
        node,
        ExpandByDepth(node, root, depth), n => ExpandByDepth(n, root, depth + 1),
        Fixed(node, depth), n => Fixed(n, depth + 1));
    }
  }

  /** On a schema without references the expansion is the identity within the bound and an
      error beyond it. */
  lemma IdentityOnRefFree(schema: map<string, Json>)
    requires RefFree(Obj(schema))
    ensures ExpandLocalRefs(schema) == if HeightAtMost(Obj(schema), MAX_DEPTH) then Some(schema) else None
  {
    StackIsRedundant(Obj(schema), Obj(schema), 0);
    RefFreeIsFixed(Obj(schema), Obj(schema), 0);
  }

  /** A successful expansion has no reference left, fits the bound, and expands to itself. */
  lemma ExpansionIsIdempotent(schema: map<string, Json>)
    requires ExpandLocalRefs(schema).Some?
    ensures RefFree(Obj(ExpandLocalRefs(schema).value))
    ensures HeightAtMost(Obj(ExpandLocalRefs(schema).value), MAX_DEPTH)
    ensures ExpandLocalRefs(ExpandLocalRefs(schema).value) == ExpandLocalRefs(schema)
  {
    hide Expand, ExpandByDepth, RefFree, HeightAtMost;
    StackIsRedundant(Obj(schema), Obj(schema), 0);
    ExpansionIsRefFree(Obj(schema), Obj(schema), 0);
    ExpansionFitsBound(Obj(schema), Obj(schema), 0);
    IdentityOnRefFree(ExpandLocalRefs(schema).value);
  }

  // ---------------------------------------------- the meaning is preserved

  function Member(node: Json, token: Token): Option<Json> {
    match (node, token)
    case (Obj(fields), Key(name)) => if name in fields then Some(fields[name]) else None
    case (Arr(items), Index(i)) => if i < |items| && i <= MAX_INT64 then Some(items[i]) else None
    case _ => None
  }

  /** The node a reader of the ORIGINAL document reaches along `path`, chasing every
      reference it meets; at most `fuel` moves. */
  function Follow(node: Json, root: Json, path: seq<Token>, fuel: nat): Option<Json>
    decreases fuel
  {
    if fuel == 0 then None
    else if node.Obj? && ReferenceOf(node.fields).Local? then
      match Target(root, ReferenceOf(node.fields).target)
      case Some(resolved) => Follow(resolved, root, path, fuel - 1)
      case None => None
    else if path == [] then Some(node)
    else
      match Member(node, path[0])
      case Some(next) => Follow(next, root, path[1..], fuel - 1)
      case None => None
  }

  /** Equal scalars, arrays of one length, objects with one set of keys. */
  predicate SameShape(a: Json, b: Json) {
    match (a, b)
    case (Arr(xs), Arr(ys)) => |xs| == |ys|
    case (Obj(f), Obj(g)) => f.Keys == g.Keys
    case _ => a == b
  }

  lemma MemberExpansion(node: Json, root: Json, depth: nat, token: Token)
    requires ExpandByDepth(node, root, depth).Some? && !IsReference(node)
    ensures var out := ExpandByDepth(node, root, depth).value;
            && SameShape(out, node)
            && (Member(out, token).Some? <==> Member(node, token).Some?)
            && (Member(out, token).Some? ==>
                  ExpandByDepth(Member(node, token).value, root, depth + 1) == Member(out, token))
  {
    ByDepthMembers(node, root, depth);
  }

  lemma PathThroughMember(node: Json, path: seq<Token>)
    requires path != []
    ensures ValidPath(node, path) <==> Member(node, path[0]).Some? && ValidPath(Member(node, path[0]).value, path[1..])
    ensures ValidPath(node, path) ==> At(node, path) == At(Member(node, path[0]).value, path[1..])
  {
  }

  /** Reading the expanded tree without any reference is the same as reading the original
      with references: the same paths exist and each names a node of the same shape. */
  lemma {:induction false} ExpansionPreservesNavigation(node: Json, root: Json, depth: nat, path: seq<Token>)
    requires ExpandByDepth(node, root, depth).Some?
    ensures var out, seen := ExpandByDepth(node, root, depth).value, Follow(node, root, path, MAX_DEPTH + 1 - depth);
            && (ValidPath(out, path) <==> seen.Some?)
            && (seen.Some? ==> SameShape(At(out, path), seen.value))
    decreases MAX_DEPTH + 1 - depth
  {
    hide Target, ReferenceOf, ItemsByDepth, FieldsByDepth, CollectItems, CollectFields;
    if IsReference(node) {
      ExpansionPreservesNavigation(Target(root, ReferenceOf(node.fields).target).value, root, depth + 1, path);
    } else if path == [] {
      MemberExpansion(node, root, depth, Key(""));
    } else {
      MemberExpansion(node, root, depth, path[0]);
      PathThroughMember(ExpandByDepth(node, root, depth).value, path);
      if Member(node, path[0]).Some? {
        ExpansionPreservesNavigation(Member(node, path[0]).value, root, depth + 1, path[1..]);
      }
    }
  }

  // ------------------------------------------------ what a reference names

  function RefNode(text: string): Json {
    Obj(map["$ref" := Str(text)])
  }

  /** A reference written with the pointer of a path expands to what is at that path, and "#" to
      the whole document. White space around the text does not matter. */
  lemma ReferenceNamesPath(root: Json, path: seq<Token>, text: string, depth: nat)
    requires root.Obj? && depth <= MAX_DEPTH
    requires path != [] && ValidPath(root, path) && TrimSpace(text) == "#/" + Encode(path)
    ensures ExpandByDepth(RefNode(text), root, depth) == ExpandByDepth(At(root, path), root, depth + 1)
  {
    hide TrimSpace, ResolveLocalRef, At, Encode, ValidPath;
    RoundTrip(root.fields, path);
    assert ("#/" + Encode(path))[2..] == Encode(path) && ("#/" + Encode(path))[..1] == "#";
    assert Target(root, "#/" + Encode(path)) == Some(At(root, path));
    ReferenceFollowed(text, root, depth);
  }

  lemma WholeDocumentReference(root: Json, text: string, depth: nat)
    requires depth <= MAX_DEPTH && TrimSpace(text) == "#"
    ensures ExpandByDepth(RefNode(text), root, depth) == ExpandByDepth(root, root, depth + 1)
  {
    hide TrimSpace;
    ReferenceFollowed(text, root, depth);
  }

  lemma ReferenceFollowed(text: string, root: Json, depth: nat)
    requires depth <= MAX_DEPTH && HasPrefix(TrimSpace(text), "#")
    ensures ExpandByDepth(RefNode(text), root, depth)
            == (var found := Target(root, TrimSpace(text));
                if found.None? then None else ExpandByDepth(found.value, root, depth + 1))
  {
    hide TrimSpace, Target, HasPrefix;
  }

  /** The text of the pointer is what it takes: it stands unless it ends with white space. */
  lemma PointerIsItsText(root: Json, path: seq<Token>, depth: nat)
    requires root.Obj? && depth <= MAX_DEPTH && path != [] && ValidPath(root, path)
    requires var pointer := Encode(path); pointer == "" || !IsSpace(pointer[|pointer| - 1])
    ensures ExpandByDepth(RefNode("#/" + Encode(path)), root, depth) == ExpandByDepth(At(root, path), root, depth + 1)
  {
    var text := "#/" + Encode(path);
    assert text[0] == '#' && text[|text| - 1] == if Encode(path) == "" then '/' else Encode(path)[|Encode(path)| - 1];
    assert Trimmed(text);
    ReferenceNamesPath(root, path, text, depth);
  }

  /** A key ending with white space cannot be named last: the reference reads as that of the
      key without it. */
  lemma TrailingSpaceIsCut(root: Json, pointer: string, spaces: string, depth: nat)
    requires forall i | 0 <= i < |spaces| :: IsSpace(spaces[i])
    ensures ExpandByDepth(RefNode("#/" + pointer + spaces), root, depth) == ExpandByDepth(RefNode("#/" + pointer), root, depth)
  {
    TrimSpaceCuts("#/" + pointer, spaces);
    hide TrimSpace, Target;
    assert ReferenceOf(RefNode("#/" + pointer + spaces).fields) == ReferenceOf(RefNode("#/" + pointer).fields);
  }

  /** Nothing else is named: a reference that expands at all is "#" or the pointer of a path of
      the document, read segment by segment. */
  lemma ReferenceNeedsPath(root: Json, text: string, depth: nat) returns (path: seq<Token>)
    requires ExpandByDepth(RefNode(text), root, depth).Some?
    ensures HasPrefix(TrimSpace(text), "#")
    ensures TrimSpace(text) == "#" ==> path == []
    ensures TrimSpace(text) != "#" ==>
      root.Obj? && path != [] && ValidPath(root, path)
      && Decodes(Split(if "#/" <= TrimSpace(text) then TrimSpace(text)[2..] else TrimSpace(text), '/'), path)
    ensures path == [] || ExpandByDepth(RefNode(text), root, depth) == ExpandByDepth(At(root, path), root, depth + 1)
  {
    hide TrimSpace, Decodes, ValidPath, At;
    path := [];
    var target := TrimSpace(text);
    if target != "#" {
      ReferenceFollowed(text, root, depth);
      var fields := if root.Obj? then root.fields else map[];
      path := ResolvedPath(fields, TrimPrefix(target, "#/"));
      if !root.Obj? {
        NothingInEmpty(path);
      }
    }
  }

  lemma NothingInEmpty(path: seq<Token>)
    requires path != []
    ensures !ValidPath(Obj(map[]), path)
  {
  }

  /** Anything but text starting with '#' is no reference the expansion follows. */
  lemma ForeignReferenceFails(node: Json, root: Json, depth: nat)
    requires IsReference(node)
    requires !node.fields["$ref"].Str? || !HasPrefix(TrimSpace(node.fields["$ref"].s), "#")
    ensures ExpandByDepth(node, root, depth).None?
  {
    hide TrimSpace, Target;
  }
}
