/** The read verdict as a plain for-all over everything the walker reaches. */
module SqlVerdictProperties {
  import opened Wrappers
  import opened Text
  import opened SqlVerdict

  /** A message in the role the walker meets it in. */
  datatype Site =
    | Statement(m: Msg)
    | Selection(m: Msg)
    | SetOperation(m: Msg)
    | CommonTable(m: Msg)
    | Explanation(m: Msg)
    | Contents(m: Msg)
    | Visited(m: Msg)

  function VerdictAt(lists: Allowlists, site: Site): Verdict {
    match site
    case Statement(m) => ClassifyStmtNode(lists, m)
    case Selection(m) => InspectSelect(lists, m)
    case SetOperation(m) => InspectSetOperation(lists, m)
    case CommonTable(m) => InspectCommonTableExpr(lists, m)
    case Explanation(m) => InspectExplain(lists, m)
    case Contents(m) => WalkMessage(lists, m)
    case Visited(m) => VisitMessage(lists, m)
  }

  function Rank(site: Site): nat {
    match site case Contents(_) => 0 case Visited(_) => 2 case _ => 1
  }

  function Present(part: Option<Msg>, role: Msg -> Site): seq<Site> {
    if part.Some? then [role(part.value)] else []
  }

  /** Every part of a message, visited. */
  function AllParts(m: Msg): (sites: seq<Site>)
    ensures |sites| == |m.fields|
  {
    seq(|m.fields|, i requires 0 <= i < |m.fields| => Visited(Part(m, i)))
  }

  /** What a read demands of one site by itself: an allowlisted form, no INTO or locking
      clause, a body where one is needed, and an allowlisted unqualified or pg_catalog call. */
  predicate Harmless(lists: Allowlists, site: Site) {
    match site
    case Statement(m) => Kind(m) in {"select_stmt", "set_operation_stmt", "explain_stmt", "common_table_expr"}
    case Selection(m) => Get(m, "into_clause").None? && Get(m, "locking_clause").None?
    case SetOperation(m) => true
    case CommonTable(m) => Get(m, "ctequery").Some?
    case Explanation(m) => Get(m, "query").Some?
    case Contents(m) => true
    case Visited(m) =>
      if m.name == NODE then
        IsStatementKind(Kind(m)) ||
        (var member := Part(m, 0);
         if member.name == FUNC_CALL then PureCall(lists, member)
         else member.name == SELECT || member.name == SET_OPERATION || member.name in lists.transparent)
      else if m.name == FUNC_CALL then PureCall(lists, m)
      else m.name == SELECT || m.name == SET_OPERATION || m.name in lists.transparent
  }

  /** An allowlisted function, unqualified or in pg_catalog. */
  predicate PureCall(lists: Allowlists, call: Msg) {
    var parts := NameParts(call.fields);
    && parts.Some? && parts.value != []
    && (|parts.value| == 1 || ToLower(parts.value[0]) == "pg_catalog")
    && ToLower(parts.value[|parts.value| - 1]) in lists.pure
  }

  /** Where the walker goes from a site: no verdict and no order decides it. */
  function Next(lists: Allowlists, site: Site): seq<Site> {
    match site
    case Statement(m) =>
      (match Kind(m)
       case "select_stmt" => [Selection(Part(m, 0))]
       case "set_operation_stmt" => [SetOperation(Part(m, 0))]
       case "explain_stmt" => [Explanation(Part(m, 0))]
       case "common_table_expr" => [CommonTable(Part(m, 0))]
       case _ => [])
    case Selection(m) =>
      Present(Get(m, "larg"), x => Selection(x)) + Present(Get(m, "rarg"), x => Selection(x)) + [Contents(m)]
    case SetOperation(m) => Present(Get(m, "larg"), x => Statement(x)) + Present(Get(m, "rarg"), x => Statement(x))
    case CommonTable(m) => Present(Get(m, "ctequery"), x => Statement(x))
    case Explanation(m) => Present(Get(m, "query"), x => Statement(x))
    case Contents(m) => AllParts(m)
    case Visited(m) =>
      if m.name == NODE && IsStatementKind(Kind(m)) then [Statement(m)]
      else if m.name == SELECT then [Selection(m)]
      else if m.name == SET_OPERATION then [SetOperation(m)]
      else [Contents(m)]
  }

  lemma NextIsSmaller(lists: Allowlists, site: Site, k: nat)
    requires k < |Next(lists, site)|
    ensures (site.m decreases to Next(lists, site)[k].m)
         || (Next(lists, site)[k].m == site.m && Rank(Next(lists, site)[k]) < Rank(site))
  {
  }

  /** `there` is reached by the walk that starts at `here`. */
  ghost predicate Reaches(lists: Allowlists, here: Site, there: Site)
    decreases here.m, Rank(here)
  {
    here == there ||
    exists k :: 0 <= k < |Next(lists, here)|
      && (NextIsSmaller(lists, here, k); Reaches(lists, Next(lists, here)[k], there))
  }

  // ------------------------------------------------- one step of the walk

  /** The fold over parts gives the strongest verdict among them: early exit and order of
      the parts make no difference. */
  lemma {:induction false} WalkFromIsStrongest(lists: Allowlists, m: Msg, i: nat, acc: Verdict)
    requires i <= |m.fields| && acc != Reject
    ensures var v := WalkFrom(lists, m, i, acc);
            && (v == Reject <==> exists j :: i <= j < |m.fields| && VisitMessage(lists, Part(m, j)) == Reject)
            && (v == Read <==> acc == Read && forall j | i <= j < |m.fields| :: VisitMessage(lists, Part(m, j)) == Read)
    decreases |m.fields| - i
  {
    hide VisitMessage;
    if i < |m.fields| {
      var combined := Combine(acc, VisitMessage(lists, Part(m, i)));
      if combined != Reject {
        WalkFromIsStrongest(lists, m, i + 1, combined);
      }
    }
  }

  lemma WalkIsStrongest(lists: Allowlists, m: Msg)
    ensures WalkMessage(lists, m) == Reject <==>
      exists j :: 0 <= j < |m.fields| && VisitMessage(lists, Part(m, j)) == Reject
    ensures WalkMessage(lists, m) == Read <==>
      forall j | 0 <= j < |m.fields| :: VisitMessage(lists, Part(m, j)) == Read
  {
    WalkFromIsStrongest(lists, m, 0, Read);
  }

  /** Permuting the parts of a message changes none of the three verdicts of its walk. */
  lemma WalkOrderIrrelevant(lists: Allowlists, m: Msg, m': Msg)
    requires multiset(m.fields) == multiset(m'.fields)
    ensures WalkMessage(lists, m) == WalkMessage(lists, m')
  {
    hide VisitMessage, WalkMessage;
    WalkIsStrongest(lists, m);
    WalkIsStrongest(lists, m');
    forall i | 0 <= i < |m.fields| ensures exists j :: 0 <= j < |m'.fields| && Part(m', j) == Part(m, i) {
      assert m.fields[i] in multiset(m'.fields);
      var j :| 0 <= j < |m'.fields| && m'.fields[j] == m.fields[i];
      assert Part(m', j) == Part(m, i);
    }
    forall j | 0 <= j < |m'.fields| ensures exists i :: 0 <= i < |m.fields| && Part(m, i) == Part(m', j) {
      assert m'.fields[j] in multiset(m.fields);
      var i :| 0 <= i < |m.fields| && m.fields[i] == m'.fields[j];
      assert Part(m, i) == Part(m', j);
    }
  }

  lemma CallIsPureIff(lists: Allowlists, call: Msg)
    ensures CheckFuncCall(lists, call) == Read <==> PureCall(lists, call)
  {
  }

  predicate AllRead(lists: Allowlists, sites: seq<Site>) {
    forall k | 0 <= k < |sites| :: VerdictAt(lists, sites[k]) == Read
  }

  /** A site is a read exactly when it is harmless itself and so is all it leads to. */
  lemma ReadStep(lists: Allowlists, site: Site)
    ensures VerdictAt(lists, site) == Read <==> Harmless(lists, site) && AllRead(lists, Next(lists, site))
  {
    match site
    case Statement(m) =>
      if Next(lists, site) != [] {
        assert AllRead(lists, Next(lists, site)) <==> VerdictAt(lists, Next(lists, site)[0]) == Read;
      }
    case Selection(m) => SelectionStep(lists, m);
    case SetOperation(m) => PairStep(lists, m);
    case CommonTable(m) =>
      if Next(lists, site) != [] {
        assert AllRead(lists, Next(lists, site)) <==> VerdictAt(lists, Next(lists, site)[0]) == Read;
      }
    case Explanation(m) =>
      if Next(lists, site) != [] {
        assert AllRead(lists, Next(lists, site)) <==> VerdictAt(lists, Next(lists, site)[0]) == Read;
      }
    case Contents(m) => ContentsStep(lists, m);
    case Visited(m) => VisitedStep(lists, m);
  }

  lemma ContentsStep(lists: Allowlists, m: Msg)
    ensures WalkMessage(lists, m) == Read <==> Harmless(lists, Contents(m)) && AllRead(lists, Next(lists, Contents(m)))
  {
    WalkIsStrongest(lists, m);
    hide VisitMessage, WalkMessage;
    assert forall j | 0 <= j < |m.fields| :: AllParts(m)[j] == Visited(Part(m, j));
    assert forall j | 0 <= j < |m.fields| :: VerdictAt(lists, AllParts(m)[j]) == VisitMessage(lists, Part(m, j));
  }

  lemma VisitedStep(lists: Allowlists, m: Msg)
    ensures VisitMessage(lists, m) == Read <==> Harmless(lists, Visited(m)) && AllRead(lists, Next(lists, Visited(m)))
  {
    CallIsPureIff(lists, m);
    if m.fields != [] {
      CallIsPureIff(lists, Part(m, 0));
    }
    hide CheckFuncCall, PureCall, WalkMessage, InspectSelect, InspectSetOperation, ClassifyStmtNode;
    assert AllRead(lists, Next(lists, Visited(m))) <==> VerdictAt(lists, Next(lists, Visited(m))[0]) == Read;
  }

  lemma SelectionStep(lists: Allowlists, m: Msg)
    ensures InspectSelect(lists, m) == Read <==> Harmless(lists, Selection(m)) && AllRead(lists, Next(lists, Selection(m)))
  {
    hide WalkMessage, Get;
    var left := Present(Get(m, "larg"), x => Selection(x));
    var right := Present(Get(m, "rarg"), x => Selection(x));
    var next := Next(lists, Selection(m));
    assert next == left + right + [Contents(m)];
    assert next[|left| + |right|] == Contents(m);
    assert left != [] ==> next[0] == left[0];
    assert right != [] ==> next[|left|] == right[0];
  }

  lemma PairStep(lists: Allowlists, m: Msg)
    ensures InspectSetOperation(lists, m) == Read <==> AllRead(lists, Next(lists, SetOperation(m)))
  {
    hide ClassifyStmtNode, Get;
    var left := Present(Get(m, "larg"), x => Statement(x));
    var right := Present(Get(m, "rarg"), x => Statement(x));
    var next := Next(lists, SetOperation(m));
    assert next == left + right;
    assert left != [] ==> next[0] == left[0];
    assert right != [] ==> next[|left|] == right[0];
  }

  // ------------------------------------------------------- the whole walk

  ghost predicate AllHarmless(lists: Allowlists, here: Site) {
    forall there | Reaches(lists, here, there) :: Harmless(lists, there)
  }

  /** The early-exit, mutually recursive walk says "read" exactly when every site it can reach
      is harmless. */
  lemma {:induction false} ReadIffAllHarmless(lists: Allowlists, here: Site)
    ensures VerdictAt(lists, here) == Read <==> AllHarmless(lists, here)
    decreases here.m, Rank(here)
  {
    hide VerdictAt, Harmless;
    ReadStep(lists, here);
    var next := Next(lists, here);
    forall k | 0 <= k < |next| ensures VerdictAt(lists, next[k]) == Read <==> AllHarmless(lists, next[k]) {
      NextIsSmaller(lists, here, k);
      ReadIffAllHarmless(lists, next[k]);
    }
    if AllHarmless(lists, here) {
      assert Reaches(lists, here, here);
      forall k | 0 <= k < |next| ensures AllHarmless(lists, next[k]) {
        forall there | Reaches(lists, next[k], there) ensures Harmless(lists, there) {
          assert Reaches(lists, here, there);
        }
      }
    }
    if Harmless(lists, here) && AllRead(lists, next) {
      forall there | Reaches(lists, here, there) ensures Harmless(lists, there) {
        if there != here {
          var k :| 0 <= k < |next| && Reaches(lists, next[k], there);
          assert AllHarmless(lists, next[k]);
        }
      }
    }
  }

  /** SQL text is classified as a read exactly when it parses to one statement from which
      only harmless sites are reached. */
  lemma ReadStatementIff(lists: Allowlists, parsed: Option<seq<Option<Msg>>>)
    ensures Classify(lists, parsed) == ReadStatement <==>
      && parsed.Some? && |parsed.value| == 1 && parsed.value[0].Some?
      && AllHarmless(lists, Statement(parsed.value[0].value))
  {
    hide AllHarmless, ClassifyStmtNode;
    if parsed.Some? && |parsed.value| == 1 && parsed.value[0].Some? {
      ReadIffAllHarmless(lists, Statement(parsed.value[0].value));
    }
  }

  // ------------------------------------------- all three verdicts, site by site

  /** A call by the names in its funcname list: none is malformed, a schema other than pg_catalog
      or a function off the allowlist makes it a write. */
  function CallVerdict(lists: Allowlists, call: Msg): Verdict {
    match NameParts(call.fields)
    case None => Reject
    case Some(parts) =>
      if parts == [] then Reject
      else if |parts| >= 2 && ToLower(parts[0]) != "pg_catalog" then Write
      else if ToLower(parts[|parts| - 1]) in lists.pure then Read
      else Write
  }

  /** What a site says by itself. Read means that it leaves the verdict to what it leads to. */
  function Own(lists: Allowlists, site: Site): Verdict {
    match site
    case Statement(m) =>
      if Kind(m) in {"select_stmt", "set_operation_stmt", "explain_stmt", "common_table_expr"} then Read
      else if HasSuffix(Kind(m), "_stmt") then Write
      else Reject
    case Selection(m) => if WritesOutright(m) then Write else Read
    case SetOperation(_) => Read
    case CommonTable(m) => if Get(m, "ctequery").Some? then Read else Reject
    case Explanation(m) => if Get(m, "query").Some? then Read else Reject
    case Contents(_) => Read
    case Visited(m) =>
      if m.name == NODE then
        if IsStatementKind(Kind(m)) then Read else NodeVerdict(lists, Part(m, 0))
      else if m.name == SELECT || m.name == SET_OPERATION then Read
      else FormVerdict(lists, m)
  }

  function NodeVerdict(lists: Allowlists, member: Msg): Verdict {
    if member.name == SELECT || member.name == SET_OPERATION then Read else FormVerdict(lists, member)
  }

  function FormVerdict(lists: Allowlists, m: Msg): Verdict {
    if m.name == FUNC_CALL then CallVerdict(lists, m) else if m.name in lists.transparent then Read else Reject
  }

  /** A SELECT takes the first verdict other than read among its operands and contents; everything
      else the strongest, a rejection above a write. */
  predicate Among(site: Site, verdict: Verdict, parts: seq<Verdict>) {
    if site.Selection? then
      if forall k | 0 <= k < |parts| :: parts[k] == Read then verdict == Read
      else exists k :: 0 <= k < |parts| && parts[k] == verdict != Read && forall j | 0 <= j < k :: parts[j] == Read
    else
      verdict == if Reject in parts then Reject else if Write in parts then Write else Read
  }

  function Verdicts(lists: Allowlists, sites: seq<Site>): seq<Verdict> {
    seq(|sites|, k requires 0 <= k < |sites| => VerdictAt(lists, sites[k]))
  }

  /** The verdict at every site: its own, or what follows from those of the sites it leads to. */
  lemma VerdictIs(lists: Allowlists, site: Site)
    ensures if Own(lists, site) != Read then VerdictAt(lists, site) == Own(lists, site)
            else Among(site, VerdictAt(lists, site), Verdicts(lists, Next(lists, site)))
  {
    match site
    case Statement(m) => StatementIs(lists, m);
    case Selection(m) => SelectionIs(lists, m);
    case SetOperation(m) => PairIs(lists, m);
    case CommonTable(m) => BodyIs(lists, site);
    case Explanation(m) => BodyIs(lists, site);
    case Contents(m) => ContentsAre(lists, m);
    case Visited(m) => VisitedIs(lists, m);
  }

  lemma OneVerdict(lists: Allowlists, site: Site)
    ensures Verdicts(lists, [site]) == [VerdictAt(lists, site)]
  {
    hide VerdictAt;
  }

  lemma StatementIs(lists: Allowlists, m: Msg)
    ensures var site := Statement(m);
            if Own(lists, site) != Read then VerdictAt(lists, site) == Own(lists, site)
            else Among(site, VerdictAt(lists, site), Verdicts(lists, Next(lists, site)))
  {
    hide InspectSelect, InspectSetOperation, InspectExplain, InspectCommonTableExpr;
    if Own(lists, Statement(m)) == Read {
      OneVerdict(lists, Next(lists, Statement(m))[0]);
    }
  }

  lemma BodyIs(lists: Allowlists, site: Site)
    requires site.CommonTable? || site.Explanation?
    ensures if Own(lists, site) != Read then VerdictAt(lists, site) == Own(lists, site)
            else Among(site, VerdictAt(lists, site), Verdicts(lists, Next(lists, site)))
  {
    hide ClassifyStmtNode, Get;
    if Own(lists, site) == Read {
      OneVerdict(lists, Next(lists, site)[0]);
    }
  }

  lemma SelectionIs(lists: Allowlists, m: Msg)
    ensures var site := Selection(m);
            if Own(lists, site) != Read then VerdictAt(lists, site) == Own(lists, site)
            else Among(site, VerdictAt(lists, site), Verdicts(lists, Next(lists, site)))
  {
    hide WalkMessage, Get, InspectSelect, Verdicts, Among;
    SelectVerdict(lists, m);
    var left := Present(Get(m, "larg"), x => Selection(x));
    var right := Present(Get(m, "rarg"), x => Selection(x));
    assert Next(lists, Selection(m)) == left + right + [Contents(m)];
    VerdictsJoin(lists, left + right, [Contents(m)]);
    VerdictsJoin(lists, left, right);
    OneVerdict(lists, Contents(m));
    NoVerdicts(lists);
    if left != [] {
      OneVerdict(lists, left[0]);
    }
    if right != [] {
      OneVerdict(lists, right[0]);
    }
    if !WritesOutright(m) {
      FirstCounts(m, Verdicts(lists, left), Verdicts(lists, right), WalkMessage(lists, m), InspectSelect(lists, m));
    }
  }

  lemma VerdictsJoin(lists: Allowlists, a: seq<Site>, b: seq<Site>)
    ensures Verdicts(lists, a + b) == Verdicts(lists, a) + Verdicts(lists, b)
  {
    hide VerdictAt;
  }

  lemma NoVerdicts(lists: Allowlists)
    ensures Verdicts(lists, []) == []
  {
  }

  lemma FirstCounts(m: Msg, left: seq<Verdict>, right: seq<Verdict>, contents: Verdict, verdict: Verdict)
    requires |left| <= 1 && |right| <= 1
    requires verdict == if left != [] && left[0] != Read then left[0]
                        else if right != [] && right[0] != Read then right[0] else contents
    ensures Among(Selection(m), verdict, left + right + [contents])
  {
    var parts := left + right + [contents];
    assert parts[|left| + |right|] == contents;
    assert left != [] ==> parts[0] == left[0];
    assert right != [] ==> parts[|left|] == right[0];
  }

  lemma PairIs(lists: Allowlists, m: Msg)
    ensures var site := SetOperation(m);
            Among(site, VerdictAt(lists, site), Verdicts(lists, Next(lists, site)))
  {
    hide ClassifyStmtNode, Get;
    var left := Present(Get(m, "larg"), x => Statement(x));
    var right := Present(Get(m, "rarg"), x => Statement(x));
    assert Next(lists, SetOperation(m)) == left + right;
    assert Verdicts(lists, left + right) == Verdicts(lists, left) + Verdicts(lists, right);
    assert left == [] ==> Verdicts(lists, left) == [];
    assert right == [] ==> Verdicts(lists, right) == [];
    if left != [] {
      OneVerdict(lists, left[0]);
    }
    if right != [] {
      OneVerdict(lists, right[0]);
    }
  }

  lemma ContentsAre(lists: Allowlists, m: Msg)
    ensures var site := Contents(m);
            Among(site, VerdictAt(lists, site), Verdicts(lists, Next(lists, site)))
  {
    WalkIsStrongest(lists, m);
    hide VisitMessage, WalkMessage;
    var verdicts := Verdicts(lists, Next(lists, Contents(m)));
    assert |verdicts| == |m.fields| && forall j | 0 <= j < |m.fields| :: verdicts[j] == VisitMessage(lists, Part(m, j));
    if Reject in verdicts {
      var j :| 0 <= j < |verdicts| && verdicts[j] == Reject;
    } else {
      forall j | 0 <= j < |m.fields| ensures VisitMessage(lists, Part(m, j)) != Reject {
        assert verdicts[j] in verdicts;
      }
      if Write in verdicts {
        var j :| 0 <= j < |verdicts| && verdicts[j] == Write;
        assert VisitMessage(lists, Part(m, j)) == Write;
      } else {
        forall j | 0 <= j < |m.fields| ensures VisitMessage(lists, Part(m, j)) == Read {
          assert verdicts[j] in verdicts;
        }
      }
    }
  }

  lemma CallVerdictIs(lists: Allowlists, call: Msg)
    ensures CheckFuncCall(lists, call) == CallVerdict(lists, call)
  {
    hide NameParts, ToLower;
  }

  lemma VisitedIs(lists: Allowlists, m: Msg)
    ensures var site := Visited(m);
            if Own(lists, site) != Read then VerdictAt(lists, site) == Own(lists, site)
            else Among(site, VerdictAt(lists, site), Verdicts(lists, Next(lists, site)))
  {
    CallVerdictIs(lists, m);
    if m.fields != [] {
      CallVerdictIs(lists, Part(m, 0));
    }
    hide CheckFuncCall, CallVerdict, WalkMessage, InspectSelect, InspectSetOperation, ClassifyStmtNode, IsStatementKind;
    OneVerdict(lists, Next(lists, Visited(m))[0]);
  }

  /** What a text is classified as, given the statements it parses to. */
  lemma ClassificationIs(lists: Allowlists, parsed: Option<seq<Option<Msg>>>)
    ensures parsed.None? || |parsed.value| != 1 || parsed.value[0].None? ==> Classify(lists, parsed) == Rejected
    ensures parsed.Some? && |parsed.value| == 1 && parsed.value[0].Some? ==>
      var verdict := VerdictAt(lists, Statement(parsed.value[0].value));
      && (Classify(lists, parsed) == ReadStatement <==> verdict == Read)
      && (Classify(lists, parsed) == WriteStatement <==> verdict == Write)
      && (Classify(lists, parsed) == Rejected <==> verdict == Reject)
  {
    hide ClassifyStmtNode;
  }

  /** One part of a function's name: a node with a string in it. */
  function NamePart(text: string): Field {
    Field("funcname", Msg(NODE, "", [Field("string", Msg("pg_query.String", text, []))]))
  }

  function NameFields(names: seq<string>): seq<Field> {
    seq(|names|, i requires 0 <= i < |names| => NamePart(names[i]))
  }

  /** The names of a call are read off its funcname parts in order, whatever other fields follow. */
  lemma {:induction false} NamesAreRead(names: seq<string>, others: seq<Field>)
    requires forall i | 0 <= i < |names| :: names[i] != ""
    requires forall i | 0 <= i < |others| :: others[i].name != "funcname"
    ensures NameParts(NameFields(names) + others) == Some(names)
    decreases |names| + |others|
  {
    var fields := NameFields(names) + others;
    if names != [] {
      assert fields[0] == NamePart(names[0]) && fields[1..] == NameFields(names[1..]) + others;
      NamesAreRead(names[1..], others);
      assert names == [names[0]] + names[1..];
    } else if others != [] {
      assert fields == others && others[1..] == NameFields([]) + others[1..];
      NamesAreRead([], others[1..]);
    } else {
      assert fields == [];
    }
  }

  lemma GetOfTwo(m: Msg, field: string)
    requires |m.fields| == 2
    ensures Get(m, field) == if m.fields[0].name == field then Some(m.fields[0].msg)
                             else if m.fields[1].name == field then Some(m.fields[1].msg) else None
  {
    assert GetFrom(m, field, 2) == None;
    assert GetFrom(m, field, 1) == if m.fields[1].name == field then Some(m.fields[1].msg) else None;
  }

  function SwappedName(name: string): string {
    if name == "larg" then "rarg" else if name == "rarg" then "larg" else name
  }

  /** The same SELECT with its two operands exchanged. */
  function Swapped(m: Msg): (swapped: Msg)
    ensures |swapped.fields| == |m.fields|
    ensures forall i | 0 <= i < |m.fields| :: swapped.fields[i] == Field(SwappedName(m.fields[i].name), m.fields[i].msg)
  {
    m.(fields := seq(|m.fields|, i requires 0 <= i < |m.fields| => Field(SwappedName(m.fields[i].name), m.fields[i].msg)))
  }

  lemma {:induction false} SwappedGet(m: Msg, field: string, i: nat)
    requires i <= |m.fields|
    ensures GetFrom(Swapped(m), SwappedName(field), i) == GetFrom(m, field, i)
    decreases |m.fields| - i
  {
    hide Swapped;
    if i < |m.fields| {
      assert SwappedName(SwappedName(m.fields[i].name)) == m.fields[i].name;
      SwappedGet(m, field, i + 1);
    }
  }

  /** The walk over the parts does not look at the names of their fields. */
  lemma SwappedWalk(lists: Allowlists, m: Msg)
    ensures WalkMessage(lists, Swapped(m)) == WalkMessage(lists, m)
  {
    hide VisitMessage, WalkMessage, Swapped;
    WalkIsStrongest(lists, m);
    WalkIsStrongest(lists, Swapped(m));
    assert forall j | 0 <= j < |m.fields| :: Part(Swapped(m), j) == Part(m, j);
  }

  function OperandVerdict(lists: Allowlists, operand: Option<Msg>): Verdict {
    if operand.Some? then InspectSelect(lists, operand.value) else Read
  }

  /** SELECT INTO and locking selects are writes before any operand is looked at. */
  predicate WritesOutright(m: Msg) {
    Get(m, "into_clause").Some? || Get(m, "locking_clause").Some?
  }

  lemma SelectVerdict(lists: Allowlists, m: Msg)
    ensures var left, right := OperandVerdict(lists, Get(m, "larg")), OperandVerdict(lists, Get(m, "rarg"));
            InspectSelect(lists, m)
            == if WritesOutright(m) then Write else if left != Read then left else if right != Read then right else WalkMessage(lists, m)
  {
    hide WalkMessage, Get;
  }

  /** Beyond reads the verdict of a SELECT depends on the order of its operands exactly when they
      are looked at and one of them is a write and the other rejected: the left then hides the
      right. */
  lemma OperandOrderIrrelevantIff(lists: Allowlists, m: Msg)
    ensures var left, right := OperandVerdict(lists, Get(m, "larg")), OperandVerdict(lists, Get(m, "rarg"));
            InspectSelect(lists, Swapped(m)) != InspectSelect(lists, m)
            <==> !WritesOutright(m) && ((left == Write && right == Reject) || (left == Reject && right == Write))
  {
    hide GetFrom, InspectSelect, WalkMessage, Swapped;
    assert SwappedName("larg") == "rarg" && SwappedName("rarg") == "larg";
    assert SwappedName("into_clause") == "into_clause" && SwappedName("locking_clause") == "locking_clause";
    SwappedGet(m, "larg", 0);
    SwappedGet(m, "rarg", 0);
    SwappedGet(m, "into_clause", 0);
    SwappedGet(m, "locking_clause", 0);
    SelectVerdict(lists, m);
    SelectVerdict(lists, Swapped(m));
    SwappedWalk(lists, m);
  }

  /** Such operands exist: a write and a form that is not allowlisted. */
  lemma ShortCircuitHidesRejection(lists: Allowlists)
    requires "unknown" !in lists.transparent
    ensures var write := Msg(SELECT, "", [Field("into_clause", Msg("pg_query.IntoClause", "", []))]);
            var bad := Msg(SELECT, "", [Field("target_list", Msg("unknown", "", []))]);
            && InspectSelect(lists, write) == Write && InspectSelect(lists, bad) == Reject
            && InspectSelect(lists, Msg(SELECT, "", [Field("larg", write), Field("rarg", bad)])) == Write
            && InspectSelect(lists, Msg(SELECT, "", [Field("larg", bad), Field("rarg", write)])) == Reject
  {
    var write := Msg(SELECT, "", [Field("into_clause", Msg("pg_query.IntoClause", "", []))]);
    var bad := Msg(SELECT, "", [Field("target_list", Msg("unknown", "", []))]);
    assert Get(write, "into_clause").Some?;
    assert Get(bad, "into_clause").None? && Get(bad, "locking_clause").None? && Get(bad, "larg").None? && Get(bad, "rarg").None?;
    assert Part(bad, 0) == Msg("unknown", "", []);
    assert VisitMessage(lists, Part(bad, 0)) == Reject;
    assert WalkMessage(lists, bad) == Reject;
    var first := Msg(SELECT, "", [Field("larg", write), Field("rarg", bad)]);
    GetOfTwo(first, "into_clause");
    GetOfTwo(first, "locking_clause");
    GetOfTwo(first, "larg");
    assert Get(first, "into_clause").None? && Get(first, "locking_clause").None? && Get(first, "larg") == Some(write);
    var second := Msg(SELECT, "", [Field("larg", bad), Field("rarg", write)]);
    GetOfTwo(second, "into_clause");
    GetOfTwo(second, "locking_clause");
    GetOfTwo(second, "larg");
    assert Get(second, "into_clause").None? && Get(second, "locking_clause").None? && Get(second, "larg") == Some(bad);
  }
}
