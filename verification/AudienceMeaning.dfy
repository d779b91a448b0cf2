/** The compiled fragment selects what the expression says, is NULL only where identity or
    a composite value is missing, and aborts the statement exactly where a number or a
    version it reads is beyond the type it is cast to. */
module AudienceMeaning {
  import opened Prelude
  import opened Json
  import opened SqlCasts
  import opened T = AudienceTree
  import opened S = Sql
  import opened AudienceCompiler
  import opened AudienceSyntax

  /** The statement's parameters hold these binds from `$n` on. */
  ghost predicate Placed(params: seq<Bind>, n: nat, binds: seq<Bind>) {
    && 1 <= n
    && n - 1 + |binds| <= |params|
    && forall i | 0 <= i < |binds| :: params[n - 1 + i] == binds[i]
  }

  lemma {:induction false} PlacedSplit(params: seq<Bind>, n: nat, a: seq<Bind>, b: seq<Bind>)
    requires Placed(params, n, a + b)
    ensures Placed(params, n, a) && Placed(params, n + |a|, b)
  {
    forall i | 0 <= i < |a| ensures params[n - 1 + i] == a[i] { assert (a + b)[i] == a[i]; }
    forall i | 0 <= i < |b| ensures params[n + |a| - 1 + i] == b[i] { assert (a + b)[|a| + i] == b[i]; }
  }

  lemma {:induction false} TwoArgs(a: Expr, b: Expr, scope: Scope)
    ensures EvalArgs([a, b], scope) == [Eval(a, scope), Eval(b, scope)]
  {
    assert [a, b][1..] == [b] && [b][1..] == [];
    assert EvalArgs([b], scope) == [Eval(b, scope)];
  }

  lemma {:induction false} DocValue(source: Source, scope: Scope)
    ensures Eval(DocExpr(source), scope) == VJson(Doc(scope.world.row, source))
  {
    var e := DocExpr(source);
    var a := ColumnValue(if source.Trait? then DtTraits else DtMetadata, scope);
    assert Eval(e.args[1], scope) == VJson(JObject(map[]));
    assert Eval(e.args[0], scope) == a;
    TwoArgs(e.args[0], e.args[1], scope);
  }

  ghost function BoundValue(bind: Bind): Value {
    match bind case BindText(s) => VText(s) case BindJson(j) => VJson(j) case BindUuid(id) => VUuid(id)
  }

  lemma {:induction false} HoleValue(n: nat, binds: seq<Bind>, i: nat, scope: Scope)
    requires Placed(scope.params, n, binds) && i < |binds|
    ensures Eval(Param(n + i), scope) == BoundValue(binds[i])
  {
    assert scope.params[n - 1 + i] == binds[i];
  }

  lemma {:induction false} LookupText(source: Source, key: string, k: nat, scope: Scope)
    requires Eval(Param(k), scope) == VText(key)
    ensures Eval(Apply(ArrowText, DocExpr(source), HoleExpr(k, AsText)), scope) ==
        OptText(TextOf(scope.world, source, key))
  {
    DocValue(source, scope);
    assert Eval(HoleExpr(k, AsText), scope) == VText(key);
  }

  lemma {:induction false} CoalesceFalse(e: Expr, scope: Scope)
    ensures Eval(Call(Coalesce, [e, S.Bool(false)]), scope)
         == (if Eval(e, scope).Abort? then Abort else if Eval(e, scope).Null? then VBool(false) else Eval(e, scope))
  {
    hide Eval;
    CallOfTwo(Coalesce, e, S.Bool(false), scope);
    ConstantValue(false, scope);
  }

  lemma {:induction false} ConstantValue(b: bool, scope: Scope)
    ensures Eval(S.Bool(b), scope) == VBool(b)
  {
  }

  lemma {:induction false} CallOfTwo(fn: S.Fun, a: Expr, b: Expr, scope: Scope)
    ensures Eval(Call(fn, [a, b]), scope) == CallValue(fn, [Eval(a, scope), Eval(b, scope)], scope)
  {
    hide CallValue;
    TwoArgs(a, b, scope);
  }

  lemma {:induction false} EvalPrefix(leaf: Node, n: nat, scope: Scope)
    requires leaf.Prefix? && Placed(scope.params, n, Binds(leaf, scope.world.server.floatText))
    ensures Eval(LeafExpr(leaf, n, n + 1), scope) == OfTri(Meaning(leaf, scope.world))
  {
    hide Eval;
    var binds := Binds(leaf, scope.world.server.floatText);
    HoleValue(n, binds, 0, scope);
    HoleValue(n, binds, 1, scope);
    LookupText(leaf.source, leaf.key, n, scope);
    EvalCast(Param(n + 1), AsText, scope);
    var lookup := Apply(ArrowText, DocExpr(leaf.source), HoleExpr(n, AsText));
    CallOfTwo(StartsWith, lookup, HoleExpr(n + 1, AsText), scope);
    CoalesceFalse(Call(StartsWith, [lookup, HoleExpr(n + 1, AsText)]), scope);
  }

  lemma {:induction false} VersionKeyValue(e: Expr, scope: Scope)
    ensures Eval(Call(VersionKey, [e]), scope) == CallValue(VersionKey, [Eval(e, scope)], scope)
  {
    var c := Call(VersionKey, [e]);
    assert EvalArgs([e][1..], scope) == [];
    assert EvalArgs([e], scope) == [Eval(e, scope)];
  }

  /** Every segment of both versions is cast to `bigint`, whether or not the other side is
      there to compare with. */
  lemma {:induction false} EvalVersion(leaf: Node, n: nat, scope: Scope)
    requires leaf.Version? && Placed(scope.params, n, Binds(leaf, scope.world.server.floatText))
    ensures Eval(LeafExpr(leaf, n, n + 1), scope) == LeafValue(leaf, scope.world)
  {
    hide Eval, VersionReading;
    var binds := Binds(leaf, scope.world.server.floatText);
    HoleValue(n, binds, 0, scope);
    HoleValue(n, binds, 1, scope);
    LookupText(leaf.source, leaf.key, n, scope);
    var lookup := Apply(ArrowText, DocExpr(leaf.source), HoleExpr(n, AsText));
    var text := TextOf(scope.world, leaf.source, leaf.key);
    var have := if text.None? then Unreadable else VersionReading(text.value);
    VersionKeyValue(lookup, scope);
    EvalCast(Param(n + 1), AsText, scope);
    VersionKeyValue(HoleExpr(n + 1, AsText), scope);
    CompareKeys(Call(VersionKey, [lookup]), have, Call(VersionKey, [HoleExpr(n + 1, AsText)]),
                VersionReading(leaf.version), leaf.cmp, scope);
  }

  ghost function KeyValue(key: Reading<seq<int>>): Value {
    match key case Reads(k) => VKey(k) case Unreadable => Null case OutOfRange => Abort
  }

  lemma {:induction false} CompareKeys(l: Expr, a: Reading<seq<int>>, r: Expr, b: Reading<seq<int>>, cmp: Cmp,
                                       scope: Scope)
    requires Eval(l, scope) == KeyValue(a) && Eval(r, scope) == KeyValue(b)
    ensures Eval(Call(Coalesce, [Compare(Op(cmp).cmp, l, r), S.Bool(false)]), scope)
         == if a.OutOfRange? || b.OutOfRange? then Abort
            else VBool(a.Reads? && b.Reads? && CompareKey(cmp, a.value, b.value))
  {
    hide Eval, KeyLess;
    EvalCompare(Op(cmp).cmp, l, r, scope);
    CoalesceFalse(Compare(Op(cmp).cmp, l, r), scope);
  }

  lemma {:induction false} EvalNumber(leaf: Node, n: nat, scope: Scope)
    requires leaf.Number? && Placed(scope.params, n, Binds(leaf, scope.world.server.floatText))
    requires PrintsDecimals(scope.world.server)
    ensures Eval(LeafExpr(leaf, n, n + 1), scope) == LeafValue(leaf, scope.world)
  {
    hide FitsNumeric, NumericValue;
    var binds := Binds(leaf, scope.world.server.floatText);
    HoleValue(n, binds, 0, scope);
    HoleValue(n, binds, 1, scope);
    LookupText(leaf.source, leaf.key, n, scope);
    var lookup := Apply(ArrowText, DocExpr(leaf.source), HoleExpr(n, AsText));
    var text := TextOf(scope.world, leaf.source, leaf.key);
    var bound := scope.world.server.floatText(leaf.bound);
    GuardedCompare(lookup, text, HoleExpr(n + 1, AsNumeric), bound, leaf.cmp, scope);
  }

  /** The `CASE` guard: only a decimal text is cast. It says nothing of its length. */
  lemma {:induction false} GuardedCompare(lookup: Expr, text: Option<string>, limit: Expr, bound: string, cmp: Cmp,
                                          scope: Scope)
    requires Decimal(bound)
    requires Eval(lookup, scope) == OptText(text)
    requires Eval(limit, scope) == CastValue(VText(bound), AsNumeric)
    ensures
      var e := Case(Apply(Matches, lookup, Text(DECIMAL_PATTERN)),
                    Compare(Op(cmp).cmp, Cast(lookup, AsNumeric), limit), S.Bool(false));
      Eval(e, scope) ==
        if text.None? || !Decimal(text.value) then VBool(false)
        else if !(FitsNumeric(text.value) && FitsNumeric(bound)) then Abort
        else VBool(CompareReal(cmp, NumericValue(text.value), NumericValue(bound)))
  {
    hide Eval, FitsNumeric, NumericValue, Decimal;
    var test, cast := Apply(Matches, lookup, Text(DECIMAL_PATTERN)), Cast(lookup, AsNumeric);
    EvalCast(lookup, AsNumeric, scope);
    EvalMatch(lookup, scope);
    EvalCase(test, Compare(Op(cmp).cmp, cast, limit), scope);
    EvalCompare(Op(cmp).cmp, cast, limit, scope);
  }

  lemma {:induction false} EvalCast(e: Expr, ty: SqlType, scope: Scope)
    ensures Eval(Cast(e, ty), scope) == CastValue(Eval(e, scope), ty)
  {
  }

  lemma {:induction false} EvalMatch(e: Expr, scope: Scope)
    ensures Eval(Apply(Matches, e, Text(DECIMAL_PATTERN)), scope)
         == ApplyValue(Matches, Eval(e, scope), VText(DECIMAL_PATTERN), scope)
  {
  }

  lemma {:induction false} EvalCase(c: Expr, y: Expr, scope: Scope)
    ensures Eval(Case(c, y, S.Bool(false)), scope) == CaseValue(Eval(c, scope), Eval(y, scope), VBool(false))
  {
    hide ApplyValue, CallValue, CompareValue, CastValue, ColumnValue, EvalHits, AndValue, OrValue, ParamValue;
  }

  lemma {:induction false} EvalCompare(cmp: ComparisonSym, l: Expr, r: Expr, scope: Scope)
    ensures Eval(Compare(cmp, l, r), scope) == CompareValue(cmp, Eval(l, scope), Eval(r, scope))
  {
  }

  /** The subquery's condition for one joined hit. */
  ghost function HitMatches(issue: int, scope: Scope, h: Hit): Tri
    requires h.issue in scope.world.issueProject
  {
    TriAnd(TriAnd(OfBool(h.issue == issue), OfBool(scope.world.issueProject[h.issue] == scope.world.row.project)),
           if scope.world.row.userKey.None? then Unknown else OfBool(h.userKey == scope.world.row.userKey.value))
  }

  lemma {:induction false} EvalJoined(leaf: Node, n: nat, scope: Scope, h: Hit)
    requires leaf.Issue? && Eval(Param(n), scope) == VUuid(leaf.issue)
    requires h.issue in scope.world.issueProject
    ensures Eval(LeafExpr(leaf, n, n + 1).where, scope.(hit := Some(h))) == OfTri(HitMatches(leaf.issue, scope, h))
  {
    var inner := scope.(hit := Some(h));
    var row := scope.world.row;
    SameIssue(leaf.issue, n, scope, h);
    SameProject(inner);
    SameUser(inner);
    BothAnds(Compare(Eq, S.Column(IhIssue), HoleExpr(n, AsUuid)), OfBool(h.issue == leaf.issue),
             Compare(Eq, S.Column(IProject), S.Column(DtProject)),
             OfBool(scope.world.issueProject[h.issue] == row.project),
             Compare(Eq, S.Column(IhUserKey), S.Column(DtUserKey)),
             if row.userKey.None? then Unknown else OfBool(h.userKey == row.userKey.value), inner);
  }

  lemma {:induction false} SameIssue(issue: int, n: nat, scope: Scope, h: Hit)
    requires Eval(Param(n), scope) == VUuid(issue)
    ensures Eval(Compare(Eq, S.Column(IhIssue), HoleExpr(n, AsUuid)), scope.(hit := Some(h)))
         == OfTri(OfBool(h.issue == issue))
  {
    var inner := scope.(hit := Some(h));
    assert Eval(Param(n), inner) == VUuid(issue);
    assert Eval(HoleExpr(n, AsUuid), inner) == VUuid(issue);
  }

  lemma {:induction false} SameProject(scope: Scope)
    requires scope.hit.Some? && scope.hit.value.issue in scope.world.issueProject
    ensures Eval(Compare(Eq, S.Column(IProject), S.Column(DtProject)), scope)
         == OfTri(OfBool(scope.world.issueProject[scope.hit.value.issue] == scope.world.row.project))
  {
  }

  lemma {:induction false} SameUser(scope: Scope)
    requires scope.hit.Some?
    ensures Eval(Compare(Eq, S.Column(IhUserKey), S.Column(DtUserKey)), scope)
         == OfTri(if scope.world.row.userKey.None? then Unknown
                  else OfBool(scope.hit.value.userKey == scope.world.row.userKey.value))
  {
  }

  lemma {:induction false} BothAnds(a: Expr, ta: Tri, b: Expr, tb: Tri, c: Expr, tc: Tri, scope: Scope)
    requires Eval(a, scope) == OfTri(ta) && Eval(b, scope) == OfTri(tb) && Eval(c, scope) == OfTri(tc)
    ensures Eval(And(And(a, b), c), scope) == OfTri(TriAnd(TriAnd(ta, tb), tc))
  {
    assert Eval(And(a, b), scope) == OfTri(TriAnd(ta, tb));
  }

  lemma {:induction false} EvalIssue(leaf: Node, n: nat, scope: Scope)
    requires leaf.Issue? && Placed(scope.params, n, Binds(leaf, scope.world.server.floatText))
    ensures Eval(LeafExpr(leaf, n, n + 1), scope) == OfTri(Meaning(leaf, scope.world))
  {
    HoleValue(n, Binds(leaf, scope.world.server.floatText), 0, scope);
    var where := LeafExpr(leaf, n, n + 1).where;
    var world := scope.world;
    forall h | h in world.hits && h.issue in world.issueProject
      ensures Eval(where, scope.(hit := Some(h))) == OfTri(HitMatches(leaf.issue, scope, h))
    {
      EvalJoined(leaf, n, scope, h);
    }
    if WasHit(world, leaf.issue) {
      var h := Hit(leaf.issue, world.row.userKey.value);
      assert Eval(where, scope.(hit := Some(h))) == VBool(true);
    }
  }

  lemma {:induction false} EvalIs(leaf: Node, n: nat, scope: Scope)
    requires leaf.Is? && Placed(scope.params, n, Binds(leaf, scope.world.server.floatText))
    ensures Eval(LeafExpr(leaf, n, n + 1), scope) == OfTri(Meaning(leaf, scope.world))
  {
    var binds := Binds(leaf, scope.world.server.floatText);
    HoleValue(n, binds, 0, scope);
    if leaf.value.Composite() {
      HoleValue(n, binds, 1, scope);
      EvalIsComposite(leaf, n, scope);
    } else {
      EvalIsScalar(leaf, n, scope);
    }
  }

  lemma {:induction false} EvalIsComposite(leaf: Node, n: nat, scope: Scope)
    requires leaf.Is? && leaf.value.Composite()
    requires Eval(Param(n), scope) == VText(leaf.key) && Eval(Param(n + 1), scope) == VJson(leaf.value)
    ensures Eval(LeafExpr(leaf, n, n + 1), scope) == OfTri(Meaning(leaf, scope.world))
  {
    DocValue(leaf.source, scope);
    var doc := Doc(scope.world.row, leaf.source);
    assert Eval(HoleExpr(n, AsText), scope) == VText(leaf.key);
    assert Eval(HoleExpr(n + 1, AsJsonb), scope) == VJson(leaf.value);
    var member := Apply(Arrow, DocExpr(leaf.source), HoleExpr(n, AsText));
    assert Eval(member, scope) == match Member(doc, leaf.key) { case None => Null case Some(j) => VJson(j) };
  }

  lemma {:induction false} EvalIsScalar(leaf: Node, n: nat, scope: Scope)
    requires leaf.Is? && !leaf.value.Composite()
    requires Eval(Param(n), scope) == VJson(JObject(map[leaf.key := leaf.value]))
    ensures Eval(LeafExpr(leaf, n, n + 1), scope) == OfTri(Meaning(leaf, scope.world))
  {
    DocValue(leaf.source, scope);
    assert Eval(HoleExpr(n, AsJsonb), scope) == VJson(JObject(map[leaf.key := leaf.value]));
    ContainsOne(Doc(scope.world.row, leaf.source), leaf.key, leaf.value);
  }

  /** Containment of a one-member object with a scalar value is equality of that member. */
  lemma {:induction false} ContainsOne(doc: Json, key: string, value: Json)
    requires !value.Composite()
    ensures Contains(doc, JObject(map[key := value])) <==> Member(doc, key) == Some(value)
  {
    var want := map[key := value];
    assert key in want;
    if doc.JObject? && key in doc.fields {
      assert ContainsNested(doc.fields[key], want[key]) <==> doc.fields[key] == value;
    }
  }

  /** What evaluating a leaf gives. */
  ghost function LeafValue(leaf: Node, world: World): Value {
    if LeafFaults(leaf, world) then Abort else OfTri(Meaning(leaf, world))
  }

  lemma {:induction false} EvalLeaf(leaf: Node, n: nat, scope: Scope)
    requires IsLeaf(leaf) && Placed(scope.params, n, Binds(leaf, scope.world.server.floatText))
    requires PrintsDecimals(scope.world.server)
    ensures Eval(LeafExpr(leaf, n, n + 1), scope) == LeafValue(leaf, scope.world)
  {
    match leaf
    case UserKey(_) => HoleValue(n, Binds(leaf, scope.world.server.floatText), 0, scope);
    case Issue(_) => EvalIssue(leaf, n, scope);
    case Exists(source, _) =>
      HoleValue(n, [BindText(leaf.key)], 0, scope);
      DocValue(source, scope);
      assert Eval(HoleExpr(n, AsText), scope) == VText(leaf.key);
    case Is(_, _, _) => EvalIs(leaf, n, scope);
    case Prefix(_, _, _) => EvalPrefix(leaf, n, scope);
    case Number(_, _, _, _) => EvalNumber(leaf, n, scope);
    case Version(_, _, _, _) => EvalVersion(leaf, n, scope);
  }

  lemma {:induction false} SplitBinds(items: seq<Node>, n: nat, scope: Scope)
    requires items != [] && Placed(scope.params, n, BindsOf(items, scope.world.server.floatText))
    ensures Placed(scope.params, n, Binds(items[0], scope.world.server.floatText))
    ensures Placed(scope.params, n + Taken(items[0]), BindsOf(items[1..], scope.world.server.floatText))
  {
    var floatText := scope.world.server.floatText;
    PlacedSplit(scope.params, n, Binds(items[0], floatText), BindsOf(items[1..], floatText));
    TakenIsBinds(items[0], floatText);
  }

  ghost predicate LeftToRight(scope: Scope) {
    forall e :: scope.order(e).LeftFirst?
  }

  /** A value is the Kleene value or an error; an error only where `may`, and exactly where
      `does` when connectives are evaluated from left to right. */
  ghost predicate Outcome(v: Value, t: Tri, may: bool, does: bool, scope: Scope) {
    && (v == Abort || v == OfTri(t))
    && (v == Abort ==> may)
    && (LeftToRight(scope) ==> (v == Abort <==> does))
  }

  /** The outcome of a tree. */
  ghost predicate Evaluates(e: Expr, node: Node, scope: Scope) {
    Outcome(Eval(e, scope), Meaning(node, scope.world), AnyFaults(Conditions(node), scope.world),
            Faults(node, scope.world), scope)
  }

  lemma {:induction false} FaultsOf(a: seq<Node>, b: seq<Node>, world: World)
    ensures AnyFaults(a + b, world) <==> AnyFaults(a, world) || AnyFaults(b, world)
    ensures !AnyFaults([], world)
  {
    hide LeafFaults;
    forall leaf ensures leaf in a + b <==> leaf in a || leaf in b {}
  }

  lemma {:induction false} EvalIntended(node: Node, n: nat, scope: Scope)
    requires Placed(scope.params, n, Binds(node, scope.world.server.floatText))
    requires PrintsDecimals(scope.world.server)
    ensures Evaluates(Intended(node, n), node, scope)
    decreases node, 1
  {
    hide LeafExpr, Placed, PrintsDecimals, Eval, LeafFaults;
    match node
    case All(items) => if items != [] { EvalBranches(node, items, n, scope); } else { EvalConstant(node, scope); }
    case Any(items) => if items != [] { EvalBranches(node, items, n, scope); } else { EvalConstant(node, scope); }
    case Not(inner) =>
      EvalIntended(inner, n, scope);
      EvalNot(Intended(inner, n), Meaning(inner, scope.world), scope);
    case Never => EvalConstant(node, scope);
    case _ =>
      EvalLeaf(node, n, scope);
      OneLeaf(node, scope.world);
  }

  lemma {:induction false} OneLeaf(leaf: Node, world: World)
    requires IsLeaf(leaf)
    ensures AnyFaults(Conditions(leaf), world) <==> LeafFaults(leaf, world)
    ensures Faults(leaf, world) <==> LeafFaults(leaf, world)
  {
    hide LeafFaults;
    assert leaf in [leaf];
  }

  lemma {:induction false} EvalConstant(node: Node, scope: Scope)
    requires node.Never? || ((node.All? || node.Any?) && node.items == [])
    ensures Evaluates(S.Bool(node.All?), node, scope)
  {
    hide LeafFaults;
    assert Eval(S.Bool(node.All?), scope) == VBool(node.All?);
    Branchless(node, scope.world);
    hide Eval, Meaning, Visited, Conditions;
  }

  lemma {:induction false} Branchless(node: Node, world: World)
    requires node.Never? || ((node.All? || node.Any?) && node.items == [])
    ensures Meaning(node, world) == (if node.All? then Yes else No)
    ensures Visited(node, world) == [] && Conditions(node) == []
  {
    match node
    case All(items) =>
      assert MeaningAll(items, world) == Yes && ConditionsOf(items) == [];
      assert VisitedWhile(items, No, world) == [];
    case Any(items) =>
      assert MeaningAny(items, world) == No;
      assert ConditionsOf(items) == [];
      assert VisitedWhile(items, Yes, world) == [];
    case Never =>
  }

  lemma {:induction false} EvalNot(e: Expr, t: Tri, scope: Scope)
    ensures Eval(e, scope) == Abort ==> Eval(S.Not(e), scope) == Abort
    ensures Eval(e, scope) == OfTri(t) ==> Eval(S.Not(e), scope) == OfTri(TriNot(t))
  {
  }

  lemma {:induction false} EvalBranches(node: Node, items: seq<Node>, n: nat, scope: Scope)
    requires items != [] && (node == All(items) || node == Any(items))
        && Placed(scope.params, n, BindsOf(items, scope.world.server.floatText))
    requires PrintsDecimals(scope.world.server)
    ensures Evaluates(Conjunction(Intended(items[0], n), items[1..], n + Taken(items[0])), All(items), scope)
    ensures Evaluates(Disjunction(Intended(items[0], n), items[1..], n + Taken(items[0])), Any(items), scope)
    decreases node, 0
  {
    hide LeafExpr, Placed, PrintsDecimals, Eval, Intended, AnyFaults, Outcome, Visited, Conditions, Meaning;
    var world := scope.world;
    SplitBinds(items, n, scope);
    EvalIntended(items[0], n, scope);
    EvalMore(Intended(items[0], n), Meaning(items[0], world), AnyFaults(Conditions(items[0]), world),
             Faults(items[0], world), items[1..], n + Taken(items[0]), scope);
    FaultsOfFirst(items, No, world);
    FaultsOfFirst(items, Yes, world);
    Branches(Conjunction(Intended(items[0], n), items[1..], n + Taken(items[0])),
             Disjunction(Intended(items[0], n), items[1..], n + Taken(items[0])), items, scope);
  }

  /** A conjunction goes on past what is not false, a disjunction past what is not true. */
  lemma {:induction false} FaultsOfFirst(items: seq<Node>, stop: Tri, world: World)
    requires items != []
    ensures AnyFaults(ConditionsOf(items), world) <==>
            AnyFaults(Conditions(items[0]), world) || AnyFaults(ConditionsOf(items[1..]), world)
    ensures AnyFaults(VisitedWhile(items, stop, world), world) <==>
            Faults(items[0], world)
            || (Meaning(items[0], world) != stop && AnyFaults(VisitedWhile(items[1..], stop, world), world))
  {
    hide Meaning, Visited, Conditions, AnyFaults;
    FaultsOf(Conditions(items[0]), ConditionsOf(items[1..]), world);
    FaultsOf(Visited(items[0], world), VisitedWhile(items[1..], stop, world), world);
    FaultsOf(Visited(items[0], world), [], world);
  }

  /** The outcome of branches, from that of their connective. */
  lemma {:induction false} Branches(e: Expr, d: Expr, items: seq<Node>, scope: Scope)
    requires items != []
    requires Outcome(Eval(e, scope), MeaningAll(items, scope.world), AnyFaults(ConditionsOf(items), scope.world),
                     AnyFaults(VisitedWhile(items, No, scope.world), scope.world), scope)
    requires Outcome(Eval(d, scope), MeaningAny(items, scope.world), AnyFaults(ConditionsOf(items), scope.world),
                     AnyFaults(VisitedWhile(items, Yes, scope.world), scope.world), scope)
    ensures Evaluates(e, All(items), scope) && Evaluates(d, Any(items), scope)
  {
    hide Eval, AnyFaults, Outcome;
  }

  lemma {:induction false} EvalMore(left: Expr, t: Tri, may: bool, does: bool, items: seq<Node>, n: nat, scope: Scope)
    requires Placed(scope.params, n, BindsOf(items, scope.world.server.floatText))
    requires PrintsDecimals(scope.world.server)
    requires Outcome(Eval(left, scope), t, may, does, scope)
    ensures Outcome(Eval(Conjunction(left, items, n), scope), TriAnd(t, MeaningAll(items, scope.world)),
                    may || AnyFaults(ConditionsOf(items), scope.world),
                    does || (t != No && AnyFaults(VisitedWhile(items, No, scope.world), scope.world)), scope)
    ensures Outcome(Eval(Disjunction(left, items, n), scope), TriOr(t, MeaningAny(items, scope.world)),
                    may || AnyFaults(ConditionsOf(items), scope.world),
                    does || (t != Yes && AnyFaults(VisitedWhile(items, Yes, scope.world), scope.world)), scope)
    decreases items
  {
    hide Eval, Intended, Placed, PrintsDecimals, Meaning, Outcome, AnyFaults, Visited;
    var world := scope.world;
    if items == [] {
      FaultsOf([], [], world);
    } else {
      SplitBinds(items, n, scope);
      EvalIntended(items[0], n, scope);
      var m, head, e := n + Taken(items[0]), Meaning(items[0], world), Intended(items[0], n);
      var might, faults := AnyFaults(Conditions(items[0]), world), Faults(items[0], world);
      EvalBoth(left, t, may, does, e, head, might, faults, scope);
      EvalMore(And(left, e), TriAnd(t, head), may || might, does || (t != No && faults), items[1..], m, scope);
      EvalMore(Or(left, e), TriOr(t, head), may || might, does || (t != Yes && faults), items[1..], m, scope);
      TriAssociates(t, head, MeaningAll(items[1..], world));
      TriAssociates(t, head, MeaningAny(items[1..], world));
      FaultsOfFirst(items, No, world);
      FaultsOfFirst(items, Yes, world);
    }
  }

  lemma {:induction false} EvalBoth(a: Expr, s: Tri, may: bool, does: bool, b: Expr, t: Tri, might: bool, faults: bool,
                                    scope: Scope)
    requires Outcome(Eval(a, scope), s, may, does, scope) && Outcome(Eval(b, scope), t, might, faults, scope)
    ensures Outcome(Eval(And(a, b), scope), TriAnd(s, t), may || might, does || (s != No && faults), scope)
    ensures Outcome(Eval(Or(a, b), scope), TriOr(s, t), may || might, does || (s != Yes && faults), scope)
  {
    EvalConnectives(a, b, scope);
    hide Eval;
    assert LeftToRight(scope) ==> scope.order(And(a, b)).LeftFirst? && scope.order(Or(a, b)).LeftFirst?;
  }

  lemma {:induction false} EvalConnectives(a: Expr, b: Expr, scope: Scope)
    ensures Eval(And(a, b), scope) == AndValue(scope.order(And(a, b)), Eval(a, scope), Eval(b, scope))
    ensures Eval(Or(a, b), scope) == OrValue(scope.order(Or(a, b)), Eval(a, scope), Eval(b, scope))
  {
  }

  lemma TriAssociates(a: Tri, b: Tri, c: Tri)
    ensures TriAnd(TriAnd(a, b), c) == TriAnd(a, TriAnd(b, c))
    ensures TriOr(TriOr(a, b), c) == TriOr(a, TriOr(b, c))
    ensures TriAnd(a, b) != No <==> a != No && b != No
    ensures TriOr(a, b) != Yes <==> a != Yes && b != Yes
  {
  }

  // -------------------------------------------------------------- statements

  /** The statement the server runs: the fragment read under SQL precedence, with its binds
      placed from `$n` on and connectives evaluated from left to right, is an error exactly
      when a leaf it evaluates is one, and otherwise has the Kleene value of the tree. */
  lemma {:induction false} FragmentMeans(node: Node, n: nat, scope: Scope)
    requires NoEmptyAny(node) && PrintsDecimals(scope.world.server) && LeftToRight(scope)
    requires Placed(scope.params, n, Binds(node, scope.world.server.floatText))
    ensures Parse(Fragment(node, n), 0).Done? && Parse(Fragment(node, n), 0).rest == []
    ensures Eval(Parse(Fragment(node, n), 0).e, scope)
         == if Faults(node, scope.world) then Abort else OfTri(Meaning(node, scope.world))
  {
    FragmentParses(node, n);
    EvalIntended(node, n, scope);
  }

  /** In whatever order connectives are evaluated: the Kleene value or an error, and no
      error where no leaf of the tree is one. */
  lemma {:induction false} FragmentMeansInAnyOrder(node: Node, n: nat, scope: Scope)
    requires NoEmptyAny(node) && PrintsDecimals(scope.world.server)
    requires Placed(scope.params, n, Binds(node, scope.world.server.floatText))
    ensures Parse(Fragment(node, n), 0).Done? && Parse(Fragment(node, n), 0).rest == []
    ensures
      var v := Eval(Parse(Fragment(node, n), 0).e, scope);
      && (v == Abort || v == OfTri(Meaning(node, scope.world)))
      && (!AnyFaults(Conditions(node), scope.world) ==> v == OfTri(Meaning(node, scope.world)))
  {
    FragmentParses(node, n);
    EvalIntended(node, n, scope);
  }

  /** Twenty nines where a version is expected abort the statement, in any order: as the
      version of the device, whatever readable version it is compared with, and as the
      version compared with, whatever the device. */
  lemma {:induction false} LongVersionAborts(leaf: Node, n: nat, scope: Scope)
    requires leaf.Version? && Placed(scope.params, n, Binds(leaf, scope.world.server.floatText))
    requires TextOf(scope.world, leaf.source, leaf.key) == Some(LONG_VERSION) || leaf.version == LONG_VERSION
    ensures Parse(Fragment(leaf, n), 0).Done? && Eval(Parse(Fragment(leaf, n), 0).e, scope) == Abort
  {
    hide VersionReading, Parse, Fragment, Placed;
    FragmentParses(leaf, n);
    EvalVersion(leaf, n, scope);
    LongVersionIsOutOfRange();
  }

  /** Every leaf that can be unknown is known for this device. */
  ghost predicate Known(node: Node, world: World) {
    match node
    case All(items) => KnownAll(items, world)
    case Any(items) => KnownAll(items, world)
    case Not(inner) => Known(inner, world)
    case UserKey(_) => world.row.userKey.Some?
    case Is(source, key, value) => value.Composite() ==> Member(Doc(world.row, source), key).Some?
    case _ => true
  }

  ghost predicate KnownAll(items: seq<Node>, world: World) {
    items == [] || (Known(items[0], world) && KnownAll(items[1..], world))
  }

  /** The trees with none of the leaves that can be unknown. */
  ghost predicate TwoValued(node: Node) {
    match node
    case All(items) => TwoValuedAll(items)
    case Any(items) => TwoValuedAll(items)
    case Not(inner) => TwoValued(inner)
    case UserKey(_) => false
    case Is(_, _, value) => !value.Composite()
    case _ => true
  }

  ghost predicate TwoValuedAll(items: seq<Node>) {
    items == [] || (TwoValued(items[0]) && TwoValuedAll(items[1..]))
  }

  lemma {:induction false} TwoValuedIsKnown(node: Node, world: World)
    requires TwoValued(node)
    ensures Known(node, world)
  {
    match node
    case All(items) => TwoValuedAllKnown(items, world);
    case Any(items) => TwoValuedAllKnown(items, world);
    case Not(inner) => TwoValuedIsKnown(inner, world);
    case _ =>
  }

  lemma {:induction false} TwoValuedAllKnown(items: seq<Node>, world: World)
    requires TwoValuedAll(items)
    ensures KnownAll(items, world)
  {
    if items != [] {
      TwoValuedIsKnown(items[0], world);
      TwoValuedAllKnown(items[1..], world);
    }
  }

  lemma {:induction false} KnownIsNotNull(node: Node, world: World)
    requires Known(node, world)
    ensures !Meaning(node, world).Unknown?
  {
    match node
    case All(items) => KnownAllNotNull(items, world);
    case Any(items) => KnownAllNotNull(items, world);
    case Not(inner) => KnownIsNotNull(inner, world);
    case _ =>
  }

  lemma {:induction false} KnownAllNotNull(items: seq<Node>, world: World)
    requires KnownAll(items, world)
    ensures !MeaningAll(items, world).Unknown? && !MeaningAny(items, world).Unknown?
  {
    if items != [] {
      KnownIsNotNull(items[0], world);
      KnownAllNotNull(items[1..], world);
    }
  }

  /** They agree before the `i`-th number, and there the first is smaller. */
  predicate FirstSmaller(a: seq<int>, b: seq<int>, i: nat) {
    i < |a| && i < |b| && a[..i] == b[..i] && a[i] < b[i]
  }

  /** The order of keys: the first number in which two differ decides, and of two that do not
      differ the shorter is smaller. Keys of one length are ordered one way or the other. */
  lemma {:induction false} KeyLessIff(a: seq<int>, b: seq<int>)
    ensures KeyLess(a, b) <==> a < b || exists i: nat :: FirstSmaller(a, b, i)
    ensures |a| == |b| ==> KeyLess(a, b) || KeyLess(b, a) || a == b
    ensures !(KeyLess(a, b) && KeyLess(b, a))
  {
    if a != [] && b != [] {
      KeyLessIff(a[1..], b[1..]);
      assert a == [a[0]] + a[1..] && b == [b[0]] + b[1..];
      if a[0] == b[0] {
        if i: nat :| FirstSmaller(a, b, i) {
          assert a[..i][1..] == a[1..][..i - 1] && b[..i][1..] == b[1..][..i - 1];
          assert FirstSmaller(a[1..], b[1..], i - 1);
        }
        if i: nat :| FirstSmaller(a[1..], b[1..], i) {
          assert a[..i + 1] == [a[0]] + a[1..][..i] && b[..i + 1] == [b[0]] + b[1..][..i];
          assert FirstSmaller(a, b, i + 1);
        }
      } else if a[0] < b[0] {
        assert FirstSmaller(a, b, 0);
      } else {
        assert forall i: nat | 0 < i < |a| && i < |b| :: a[..i][0] == a[0] && b[..i][0] == b[0];
      }
    }
  }

  /** `not` keeps exactly the devices its operand drops, on every device the
      operand is known for; in particular always, for a two-valued tree. */
  lemma NegationIsComplement(node: Node, world: World)
    requires !Faults(node, world) && (TwoValued(node) || Known(node, world))
    ensures Selected(T.Not(node), world) <==> !Selected(node, world)
  {
    hide Faults;
    if TwoValued(node) { TwoValuedIsKnown(node, world); }
    KnownIsNotNull(node, world);
    SameFaults(node, world);
  }

  /** For a single condition the two leaves named in `Known` are exactly where a
      device is lost to both the condition and its negation. */
  lemma {:induction false} NegationLosesExactly(leaf: Node, world: World)
    requires IsLeaf(leaf) && !LeafFaults(leaf, world)
    ensures (!Selected(leaf, world) && !Selected(T.Not(leaf), world)) <==> !Known(leaf, world)
  {
    hide LeafFaults, AnyFaults, Faults, Meaning, Known;
    OneLeaf(leaf, world);
    SameFaults(leaf, world);
    LeafIsUnknownIff(leaf, world);
    NotMeans(leaf, world);
  }

  lemma {:induction false} LeafIsUnknownIff(leaf: Node, world: World)
    requires IsLeaf(leaf)
    ensures Meaning(leaf, world).Unknown? <==> !Known(leaf, world)
  {
  }

  lemma {:induction false} NotMeans(node: Node, world: World)
    ensures Meaning(T.Not(node), world) == TriNot(Meaning(node, world))
  {
  }

  /** `not` evaluates what its operand does. */
  lemma {:induction false} SameFaults(node: Node, world: World)
    ensures Faults(T.Not(node), world) <==> Faults(node, world)
  {
    hide AnyFaults;
  }

  /** A device nobody signed in on is selected neither by `userKey = k` nor by
      its negation: the `NOT` of a `userKey` condition is not its complement. */
  lemma NegatedUserKeyDropsAnonymous(world: World, key: string)
    requires world.row.userKey.None?
    ensures !Selected(UserKey(key), world) && !Selected(T.Not(UserKey(key)), world)
  {
  }
}
