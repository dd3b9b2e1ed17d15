/** The SQL verdict walker (pkg/agent/sql_classifier.go) over a generic tree of messages, for
    every allowlist of message forms and of functions. */
module SqlVerdict {
  import opened Wrappers
  import opened Text

  // -------------------------------------------------------------- the data

  datatype Verdict = Reject | Read | Write

  /** A set message-valued field; repeated fields occur once per element, in order. */
  datatype Field = Field(name: string, msg: Msg)

  /** A message: its full name, its text (of strings and option names) and its set fields. */
  datatype Msg = Msg(name: string, text: string, fields: seq<Field>)

  /** transparentMessage and pureBuiltinFunc. */
  datatype Allowlists = Allowlists(transparent: set<string>, pure: set<string>)

  const NODE := "pg_query.Node"
  const SELECT := "pg_query.SelectStmt"
  const SET_OPERATION := "pg_query.SetOperationStmt"
  const FUNC_CALL := "pg_query.FuncCall"

  function Part(m: Msg, i: nat): (part: Msg)
    requires i < |m.fields|
    ensures m decreases to part
  {
    var field := m.fields[i];
    assert m decreases to field;
    field.msg
  }

  function GetFrom(m: Msg, field: string, i: nat): (part: Option<Msg>)
    requires i <= |m.fields|
    ensures part.Some? ==> (m decreases to part.value)
    decreases |m.fields| - i
  {
    if i == |m.fields| then None
    else if m.fields[i].name == field then Some(Part(m, i))
    else GetFrom(m, field, i + 1)
  }

  /** A singular field. */
  function Get(m: Msg, field: string): (part: Option<Msg>)
    ensures part.Some? ==> (m decreases to part.value)
  {
    GetFrom(m, field, 0)
  }

  /** A Node's set oneof member, by field name; "" when unset. */
  function Kind(node: Msg): string {
    if node.fields == [] then "" else node.fields[0].name
  }

  predicate IsStatementKind(kind: string) {
    kind == "" || kind == "common_table_expr" || HasSuffix(kind, "_stmt")
  }

  function Combine(acc: Verdict, next: Verdict): Verdict {
    if acc == Reject || next == Reject then Reject
    else if acc == Write || next == Write then Write
    else Read
  }

  // -------------------------------------------------------- function names

  /** The funcname parts, absent when one is not a non-empty string. */
  function NameParts(fields: seq<Field>): Option<seq<string>> {
    if fields == [] then Some([])
    else
      match NameParts(fields[1..])
      case None => None
      case Some(rest) =>
        if fields[0].name != "funcname" then Some(rest)
        else
          var node := fields[0].msg;
          if Kind(node) != "string" || node.fields[0].msg.text == "" then None
          else Some([node.fields[0].msg.text] + rest)
  }

  /** checkFuncCall */
  function CheckFuncCall(lists: Allowlists, call: Msg): Verdict {
    match NameParts(call.fields)
    case None => Reject
    case Some(parts) =>
      if parts == [] then Reject
      else if |parts| > 1 && ToLower(parts[0]) != "pg_catalog" then Write
      else if ToLower(parts[|parts| - 1]) !in lists.pure then Write
      else Read
  }

  // -------------------------------------------------------------- the walker

  /** classifyStmtNode */
  function ClassifyStmtNode(lists: Allowlists, node: Msg): Verdict
    decreases node, 1
  {
    var kind := Kind(node);
    if kind == "" then Reject
    else if kind == "select_stmt" then InspectSelect(lists, Part(node, 0))
    else if kind == "set_operation_stmt" then InspectSetOperation(lists, Part(node, 0))
    else if kind == "explain_stmt" then InspectExplain(lists, Part(node, 0))
    else if kind == "common_table_expr" then InspectCommonTableExpr(lists, Part(node, 0))
    else if HasSuffix(kind, "_stmt") then Write
    else Reject
  }

  function InspectSelect(lists: Allowlists, sel: Msg): Verdict
    decreases sel, 1
  {
    if Get(sel, "into_clause").Some? || Get(sel, "locking_clause").Some? then Write
    else
      var left := if Get(sel, "larg").Some? then InspectSelect(lists, Get(sel, "larg").value) else Read;
      if left != Read then left
      else
        var right := if Get(sel, "rarg").Some? then InspectSelect(lists, Get(sel, "rarg").value) else Read;
        if right != Read then right else WalkMessage(lists, sel)
  }

  function InspectSetOperation(lists: Allowlists, stmt: Msg): Verdict
    decreases stmt, 1
  {
    var left := if Get(stmt, "larg").Some? then ClassifyStmtNode(lists, Get(stmt, "larg").value) else Read;
    var right := if Get(stmt, "rarg").Some? then ClassifyStmtNode(lists, Get(stmt, "rarg").value) else Read;
    Combine(left, right)
  }

  function InspectCommonTableExpr(lists: Allowlists, cte: Msg): Verdict
    decreases cte, 1
  {
    match Get(cte, "ctequery")
    case None => Reject
    case Some(query) => ClassifyStmtNode(lists, query)
  }

  /** EXPLAIN, with or without ANALYZE, has the verdict of what it explains. */
  function InspectExplain(lists: Allowlists, stmt: Msg): Verdict
    decreases stmt, 1
  {
    match Get(stmt, "query")
    case None => Reject
    case Some(query) => ClassifyStmtNode(lists, query)
  }

  function WalkMessage(lists: Allowlists, m: Msg): Verdict
    decreases m, 0, |m.fields| + 1
  {
    WalkFrom(lists, m, 0, Read)
  }

  /** The fold over the parts from `i` on, leaving at the first rejection. */
  function WalkFrom(lists: Allowlists, m: Msg, i: nat, strongest: Verdict): Verdict
    requires i <= |m.fields|
    decreases m, 0, |m.fields| - i
  {
    if i == |m.fields| then strongest
    else
      var combined := Combine(strongest, VisitMessage(lists, Part(m, i)));
      if combined == Reject then Reject else WalkFrom(lists, m, i + 1, combined)
  }

  function VisitMessage(lists: Allowlists, m: Msg): Verdict
    decreases m, 2
  {
    if m.name == NODE then
      if IsStatementKind(Kind(m)) then ClassifyStmtNode(lists, m)
      else
        var member := Part(m, 0);
        if member.name == FUNC_CALL then
          if CheckFuncCall(lists, member) != Read then CheckFuncCall(lists, member) else WalkMessage(lists, m)
        else if member.name == SELECT || member.name == SET_OPERATION || member.name in lists.transparent then
          WalkMessage(lists, m)
        else Reject
    else if m.name == SELECT then InspectSelect(lists, m)
    else if m.name == SET_OPERATION then InspectSetOperation(lists, m)
    else if m.name == FUNC_CALL then
      if CheckFuncCall(lists, m) != Read then CheckFuncCall(lists, m) else WalkMessage(lists, m)
    else if m.name in lists.transparent then WalkMessage(lists, m)
    else Reject
  }

  datatype Classification = ReadStatement | WriteStatement | Rejected

  /** Classify, given what the parser returned: nothing, or the statements of the input. */
  function Classify(lists: Allowlists, parsed: Option<seq<Option<Msg>>>): Classification {
    match parsed
    case None => Rejected
    case Some(stmts) =>
      if |stmts| != 1 || stmts[0].None? then Rejected
      else
        match ClassifyStmtNode(lists, stmts[0].value)
        case Read => ReadStatement
        case Write => WriteStatement
        case Reject => Rejected
  }

  // ------------------------------------- the walker with its loops and exits

  method RunClassifyStmtNode(lists: Allowlists, node: Msg) returns (v: Verdict)
    ensures v == ClassifyStmtNode(lists, node)
    decreases node, 1
  {
    var kind := Kind(node);
    if kind == "select_stmt" {
      v := RunInspectSelect(lists, Part(node, 0));
    } else if kind == "set_operation_stmt" {
      v := RunInspectSetOperation(lists, Part(node, 0));
    } else if kind == "explain_stmt" || kind == "common_table_expr" {
      var body := Get(Part(node, 0), if kind == "explain_stmt" then "query" else "ctequery");
      if body.None? {
        return Reject;
      }
      v := RunClassifyStmtNode(lists, body.value);
    } else if kind != "" && HasSuffix(kind, "_stmt") {
      v := Write;
    } else {
      v := Reject;
    }
  }

  method RunInspectSelect(lists: Allowlists, sel: Msg) returns (v: Verdict)
    ensures v == InspectSelect(lists, sel)
    decreases sel, 1
  {
    if Get(sel, "into_clause").Some? || Get(sel, "locking_clause").Some? {
      return Write;
    }
    var left, right := Get(sel, "larg"), Get(sel, "rarg");
    if left.Some? {
      v := RunInspectSelect(lists, left.value);
      if v != Read {
        return;
      }
    }
    if right.Some? {
      v := RunInspectSelect(lists, right.value);
      if v != Read {
        return;
      }
    }
    v := RunWalkMessage(lists, sel);
  }

  method RunInspectSetOperation(lists: Allowlists, stmt: Msg) returns (strongest: Verdict)
    ensures strongest == InspectSetOperation(lists, stmt)
    decreases stmt, 1
  {
    strongest := Read;
    var branches := [Get(stmt, "larg"), Get(stmt, "rarg")];
    ghost var left := if branches[0].Some? then ClassifyStmtNode(lists, branches[0].value) else Read;
    for i := 0 to 2
      invariant strongest == if i == 0 then Read else if i == 1 then left else InspectSetOperation(lists, stmt)
      invariant i == 1 ==> left != Reject
    {
      if branches[i].Some? {
        var verdict := RunClassifyStmtNode(lists, branches[i].value);
        strongest := Combine(strongest, verdict);
        if strongest == Reject {
          return;
        }
      }
    }
  }

  method RunWalkMessage(lists: Allowlists, m: Msg) returns (strongest: Verdict)
    ensures strongest == WalkMessage(lists, m)
    decreases m, 0
  {
    strongest := Read;
    for i := 0 to |m.fields|
      invariant WalkFrom(lists, m, i, strongest) == WalkMessage(lists, m)
    {
      var verdict := RunVisitMessage(lists, Part(m, i));
      strongest := Combine(strongest, verdict);
      if strongest == Reject {
        return;
      }
    }
  }

  method RunVisitMessage(lists: Allowlists, m: Msg) returns (v: Verdict)
    ensures v == VisitMessage(lists, m)
    decreases m, 2
  {
    if m.name == NODE {
      if IsStatementKind(Kind(m)) {
        v := RunClassifyStmtNode(lists, m);
        return;
      }
      var member := Part(m, 0);
      if member.name == FUNC_CALL {
        v := CheckFuncCall(lists, member);
        if v != Read {
          return;
        }
      } else if member.name != SELECT && member.name != SET_OPERATION && member.name !in lists.transparent {
        return Reject;
      }
      v := RunWalkMessage(lists, m);
    } else if m.name == SELECT {
      v := RunInspectSelect(lists, m);
    } else if m.name == SET_OPERATION {
      v := RunInspectSetOperation(lists, m);
    } else if m.name == FUNC_CALL {
      v := CheckFuncCall(lists, m);
      if v == Read {
        v := RunWalkMessage(lists, m);
      }
    } else if m.name in lists.transparent {
      v := RunWalkMessage(lists, m);
    } else {
      v := Reject;
    }
  }
}
