/** The compiled fragment read back under SQL precedence: it parses exactly when
    the tree has no empty disjunction, and then to the intended expression. */
module AudienceSyntax {
  import opened Json
  import opened T = AudienceTree
  import opened S = Sql
  import opened AudienceCompiler

  function DocExpr(source: Source): Expr {
    Call(Coalesce, [S.Column(if source.Trait? then DtTraits else DtMetadata), Cast(Text("{}"), AsJsonb)])
  }

  function HoleExpr(n: nat, ty: SqlType): Expr {
    Cast(Param(n), ty)
  }

  function LeafExpr(leaf: Node, k: nat, v: nat): Expr
    requires IsLeaf(leaf)
  {
    match leaf
    case UserKey(_) => Compare(Eq, S.Column(DtUserKey), HoleExpr(k, AsText))
    case Issue(_) =>
      HitExists(
        And(And(Compare(Eq, S.Column(IhIssue), HoleExpr(k, AsUuid)),
                Compare(Eq, S.Column(IProject), S.Column(DtProject))),
            Compare(Eq, S.Column(IhUserKey), S.Column(DtUserKey))))
    case Exists(source, _) => NotNull(Apply(Arrow, DocExpr(source), HoleExpr(k, AsText)))
    case Is(source, _, value) =>
      if value.Composite() then
        Compare(Eq, Apply(Arrow, DocExpr(source), HoleExpr(k, AsText)), HoleExpr(v, AsJsonb))
      else
        Apply(ContainsSym, DocExpr(source), HoleExpr(k, AsJsonb))
    case Prefix(source, _, _) =>
      Call(Coalesce,
           [Call(StartsWith, [Apply(ArrowText, DocExpr(source), HoleExpr(k, AsText)), HoleExpr(v, AsText)]),
            S.Bool(false)])
    case Number(source, _, cmp, _) =>
      Case(Apply(Matches, Apply(ArrowText, DocExpr(source), HoleExpr(k, AsText)), Text(DECIMAL_PATTERN)),
           Compare(Op(cmp).cmp,
                   Cast(Apply(ArrowText, DocExpr(source), HoleExpr(k, AsText)), AsNumeric),
                   HoleExpr(v, AsNumeric)),
           S.Bool(false))
    case Version(source, _, cmp, _) =>
      Call(Coalesce,
           [Compare(Op(cmp).cmp,
                    Call(VersionKey, [Apply(ArrowText, DocExpr(source), HoleExpr(k, AsText))]),
                    Call(VersionKey, [HoleExpr(v, AsText)])),
            S.Bool(false)])
  }

  /** The expression a tree stands for. */
  function Intended(node: Node, n: nat): Expr
    decreases node
  {
    match node
    case All(items) => if items == [] then S.Bool(true)
        else Conjunction(Intended(items[0], n), items[1..], n + Taken(items[0]))
    case Any(items) => if items == [] then S.Bool(false)
        else Disjunction(Intended(items[0], n), items[1..], n + Taken(items[0]))
    case Not(inner) => S.Not(Intended(inner, n))
    case Never => S.Bool(false)
    case _ => LeafExpr(node, n, n + 1)
  }

  function Conjunction(left: Expr, items: seq<Node>, n: nat): Expr
    decreases items
  {
    if items == [] then left else Conjunction(And(left, Intended(items[0], n)), items[1..], n + Taken(items[0]))
  }

  function Disjunction(left: Expr, items: seq<Node>, n: nat): Expr
    decreases items
  {
    if items == [] then left else Disjunction(Or(left, Intended(items[0], n)), items[1..], n + Taken(items[0]))
  }

  // ------------------------------------------------------------ small readers

  lemma {:induction false} ReadHole(n: nat, ty: SqlType, rest: seq<Token>, p: nat)
    requires p < 7
    ensures Parse(Hole(n, ty) + rest, p) == Continue(HoleExpr(n, ty), rest, p)
  {
    var ts := Hole(n, ty) + rest;
    var after := [RightParen] + ([CastTo(ty)] + rest);
    assert ts[1..] == [Placeholder(n)] + after;
    assert Operand(ts[1..], 0) == Done(Param(n), after) by { assert ts[1..][1..] == after; }
    assert Parse(ts[1..], 0) == Done(Param(n), after);
    assert Operand(ts, p) == Done(Param(n), [CastTo(ty)] + rest);
    assert ([CastTo(ty)] + rest)[1..] == rest;
  }

  lemma {:induction false} ReadParens(body: seq<Token>, rest: seq<Token>, p: nat)
    ensures Parse(body, 0).Done? && Parse(body, 0).rest == [RightParen] + rest ==>
      Parse([LeftParen] + body, p) == Continue(Parse(body, 0).e, rest, p)
    ensures Parse(body, 0) == Fail ==> Parse([LeftParen] + body, p) == Fail
  {
    assert ([LeftParen] + body)[1..] == body && ([RightParen] + rest)[1..] == rest;
  }

  lemma {:induction false} ReadDoc(source: Source, rest: seq<Token>, p: nat)
    ensures Operand(DocColumn(source) + rest, p) == Done(DocExpr(source), rest)
  {
    var ts := DocColumn(source) + rest;
    var name := if source.Trait? then DtTraits else DtMetadata;
    var end := [RightParen] + rest;
    var second := [Quoted("{}")] + ([CastTo(AsJsonb)] + end);
    assert ts[1..][1..] == [Name(name)] + ([Comma] + second);
    assert Operand(second, 0) == Done(Text("{}"), [CastTo(AsJsonb)] + end);
    assert ([CastTo(AsJsonb)] + end)[1..] == end;
    assert Parse(second, 0) == Done(Cast(Text("{}"), AsJsonb), end) by {
      assert Continue(Cast(Text("{}"), AsJsonb), end, 0) == Done(Cast(Text("{}"), AsJsonb), end);
    }
    assert Arguments(second) == DoneArgs([Cast(Text("{}"), AsJsonb)], rest) by { assert end[1..] == rest; }
    var first := [Name(name)] + ([Comma] + second);
    assert first[1..] == [Comma] + second;
    assert Operand(first, 0) == Done(S.Column(name), [Comma] + second);
    assert Parse(first, 0) == Done(S.Column(name), [Comma] + second);
    assert ([Comma] + second)[1..] == second;
    assert Arguments(first).args == [S.Column(name), Cast(Text("{}"), AsJsonb)];
  }

  /** `column op ($n)::ty`. */
  lemma {:induction false} ReadLookup(source: Source, op: OperatorSym, n: nat, ty: SqlType, rest: seq<Token>, p: nat)
    requires p < 6 && Ends(rest, 6)
    ensures Parse(DocColumn(source) + ([Operator(op)] + (Hole(n, ty) + rest)), p)
         == Continue(Apply(op, DocExpr(source), HoleExpr(n, ty)), rest, p)
  {
    var tail := [Operator(op)] + (Hole(n, ty) + rest);
    ReadDoc(source, tail, p);
    assert tail[1..] == Hole(n, ty) + rest;
    ReadHole(n, ty, rest, 6);
    assert Continue(HoleExpr(n, ty), rest, 6) == Done(HoleExpr(n, ty), rest);
  }

  lemma {:induction false} ReadCompare(left: Expr, cmp: ComparisonSym, right: seq<Token>, r: Expr, rest: seq<Token>,
                                       p: nat)
    requires p < 5 && Ends(rest, 4) && Parse(right, 5) == Done(r, rest)
    ensures Continue(left, [Comparison(cmp)] + right, p) == Continue(Compare(cmp, left, r), rest, p)
  {
    var ts := [Comparison(cmp)] + right;
    assert ts[1..] == right;
  }

  /** `name = other` where `other` is a column, inside a conjunction. */
  lemma {:induction false} ReadColumnsEqual(a: Col, b: Col, rest: seq<Token>)
    requires rest != [] && (rest[0] == KwAnd || rest[0] == RightParen)
    ensures Parse([Name(a), Comparison(Eq), Name(b)] + rest, 2)
         == Done(Compare(Eq, S.Column(a), S.Column(b)), rest)
  {
    var ts := [Name(a), Comparison(Eq), Name(b)] + rest;
    var right := [Name(b)] + rest;
    assert ts[1..] == [Comparison(Eq)] + right;
    assert ([Comparison(Eq)] + right)[1..] == right && right[1..] == rest;
    assert Operand(right, 5) == Done(S.Column(b), rest);
    assert Parse(right, 5) == Done(S.Column(b), rest);
    ReadCompare(S.Column(a), Eq, right, S.Column(b), rest, 2);
    assert Operand(ts, 2) == Done(S.Column(a), [Comparison(Eq)] + right);
  }

  lemma {:induction false} ReadColumnHole(a: Col, n: nat, ty: SqlType, rest: seq<Token>, p: nat)
    requires p < 5 && Ends(rest, 4)
    ensures Parse([Name(a), Comparison(Eq)] + Hole(n, ty) + rest, p)
         == Continue(Compare(Eq, S.Column(a), HoleExpr(n, ty)), rest, p)
  {
    var ts := [Name(a), Comparison(Eq)] + Hole(n, ty) + rest;
    var right := Hole(n, ty) + rest;
    assert ts[1..] == [Comparison(Eq)] + right;
    assert ([Comparison(Eq)] + right)[1..] == right;
    ReadHole(n, ty, rest, 5);
    assert Continue(HoleExpr(n, ty), rest, 5) == Done(HoleExpr(n, ty), rest);
    assert Operand(ts, p) == Done(S.Column(a), [Comparison(Eq)] + right);
  }

  lemma {:induction false} ReadIssue(leaf: Node, k: nat, v: nat, rest: seq<Token>, p: nat)
    requires leaf.Issue?
    ensures Parse(LeafText(leaf, k, v) + rest, p) == Continue(LeafExpr(leaf, k, v), rest, p)
  {
    var end := [RightParen] + rest;
    var third := [Name(IhUserKey), Comparison(Eq), Name(DtUserKey)] + end;
    var second := [Name(IProject), Comparison(Eq), Name(DtProject)] + ([KwAnd] + third);
    var first := [Name(IhIssue), Comparison(Eq)] + Hole(k, AsUuid) + ([KwAnd] + second);
    var ts := LeafText(leaf, k, v) + rest;
    assert ts[1..] == first && end[1..] == rest;
    var c1 := Compare(Eq, S.Column(IhIssue), HoleExpr(k, AsUuid));
    var c2 := Compare(Eq, S.Column(IProject), S.Column(DtProject));
    var c3 := Compare(Eq, S.Column(IhUserKey), S.Column(DtUserKey));
    ReadIssueBody(k, rest);
    assert Parse(first, 0) == Done(And(And(c1, c2), c3), end);
  }

  /** The subquery's condition, up to its closing parenthesis. */
  lemma {:induction false} ReadIssueBody(k: nat, rest: seq<Token>)
    ensures
      var end := [RightParen] + rest;
      var third := [Name(IhUserKey), Comparison(Eq), Name(DtUserKey)] + end;
      var second := [Name(IProject), Comparison(Eq), Name(DtProject)] + ([KwAnd] + third);
      var first := [Name(IhIssue), Comparison(Eq)] + Hole(k, AsUuid) + ([KwAnd] + second);
      Parse(first, 0) ==
        Done(And(And(Compare(Eq, S.Column(IhIssue), HoleExpr(k, AsUuid)),
                     Compare(Eq, S.Column(IProject), S.Column(DtProject))),
                 Compare(Eq, S.Column(IhUserKey), S.Column(DtUserKey))), end)
  {
    var end := [RightParen] + rest;
    var third := [Name(IhUserKey), Comparison(Eq), Name(DtUserKey)] + end;
    var second := [Name(IProject), Comparison(Eq), Name(DtProject)] + ([KwAnd] + third);
    var c1 := Compare(Eq, S.Column(IhIssue), HoleExpr(k, AsUuid));
    var c2 := Compare(Eq, S.Column(IProject), S.Column(DtProject));
    var c3 := Compare(Eq, S.Column(IhUserKey), S.Column(DtUserKey));
    ReadColumnHole(IhIssue, k, AsUuid, [KwAnd] + second, 0);
    ReadColumnsEqual(IProject, DtProject, [KwAnd] + third);
    ReadColumnsEqual(IhUserKey, DtUserKey, end);
    assert ([KwAnd] + second)[1..] == second && ([KwAnd] + third)[1..] == third && end[1..] == rest;
    assert Continue(And(And(c1, c2), c3), end, 0) == Done(And(And(c1, c2), c3), end);
    assert Continue(And(c1, c2), [KwAnd] + third, 0) == Done(And(And(c1, c2), c3), end);
  }

  lemma {:induction false} ReadPrefix(leaf: Node, k: nat, v: nat, rest: seq<Token>, p: nat)
    requires leaf.Prefix?
    ensures Parse(LeafText(leaf, k, v) + rest, p) == Continue(LeafExpr(leaf, k, v), rest, p)
  {
    var end := [RightParen] + rest;
    var orFalse := [Comma] + ([KwFalse] + end);
    var close := [RightParen] + orFalse;
    var second := Hole(v, AsText) + close;
    var first := DocColumn(leaf.source) + ([Operator(ArrowText)] + (Hole(k, AsText) + ([Comma] + second)));
    var inner := [FunctionName(StartsWith), LeftParen] + first;
    var ts := LeafText(leaf, k, v) + rest;
    assert ts == [FunctionName(Coalesce), LeftParen] + inner;
    assert ts[1..][1..] == inner;
    var lookup := Apply(ArrowText, DocExpr(leaf.source), HoleExpr(k, AsText));
    var call := Call(StartsWith, [lookup, HoleExpr(v, AsText)]);
    ReadStartsWith(leaf.source, k, v, orFalse);
    assert Parse(inner, 0) == Done(call, orFalse);
    ReadOrFalse(call, inner, rest);
  }

  lemma {:induction false} ReadStartsWith(source: Source, k: nat, v: nat, rest: seq<Token>)
    ensures
      var second := Hole(v, AsText) + ([RightParen] + rest);
      var first := DocColumn(source) + ([Operator(ArrowText)] + (Hole(k, AsText) + ([Comma] + second)));
      Operand([FunctionName(StartsWith), LeftParen] + first, 0)
        == Done(Call(StartsWith, [Apply(ArrowText, DocExpr(source), HoleExpr(k, AsText)), HoleExpr(v, AsText)]), rest)
  {
    var close := [RightParen] + rest;
    var second := Hole(v, AsText) + close;
    var first := DocColumn(source) + ([Operator(ArrowText)] + (Hole(k, AsText) + ([Comma] + second)));
    var inner := [FunctionName(StartsWith), LeftParen] + first;
    assert inner[1..][1..] == first;
    var lookup := Apply(ArrowText, DocExpr(source), HoleExpr(k, AsText));
    ReadLookup(source, ArrowText, k, AsText, [Comma] + second, 0);
    assert Parse(first, 0) == Done(lookup, [Comma] + second);
    ReadHole(v, AsText, close, 0);
    assert Parse(second, 0) == Done(HoleExpr(v, AsText), close);
    assert close[1..] == rest && ([Comma] + second)[1..] == second;
    assert Arguments(second) == DoneArgs([HoleExpr(v, AsText)], rest);
    assert Arguments(first) == DoneArgs([lookup, HoleExpr(v, AsText)], rest);
  }

  /** The closing `, false)` of a `COALESCE`. */
  lemma {:induction false} ReadOrFalse(e: Expr, ts: seq<Token>, rest: seq<Token>)
    requires Parse(ts, 0) == Done(e, [Comma] + ([KwFalse] + ([RightParen] + rest)))
    ensures Arguments(ts) == DoneArgs([e, S.Bool(false)], rest)
  {
    var end := [RightParen] + rest;
    var f := [KwFalse] + end;
    assert ([Comma] + f)[1..] == f && f[1..] == end && end[1..] == rest;
    assert Operand(f, 0) == Done(S.Bool(false), end);
    assert Parse(f, 0) == Done(S.Bool(false), end);
    assert Arguments(f) == DoneArgs([S.Bool(false)], rest);
  }

  lemma {:induction false} VersionShape(leaf: Node, k: nat, v: nat, rest: seq<Token>)
    requires leaf.Version?
    ensures
      var second := Hole(v, AsText) + ([RightParen] + ([Comma] + ([KwFalse] + ([RightParen] + rest))));
      var close := [RightParen] + ([Op(leaf.cmp)] + ([FunctionName(VersionKey), LeftParen] + second));
      LeafText(leaf, k, v) + rest
      == [FunctionName(Coalesce), LeftParen]
         + ([FunctionName(VersionKey), LeftParen]
            + (DocColumn(leaf.source) + ([Operator(ArrowText)] + (Hole(k, AsText) + close))))
  {
    hide Hole, DocColumn, Op;
    var doc, hk, hv := DocColumn(leaf.source), Hole(k, AsText), Hole(v, AsText);
    var orFalse := [Comma] + ([KwFalse] + ([RightParen] + rest));
    assert [Comma, KwFalse, RightParen] + rest == orFalse;
    var key := [FunctionName(VersionKey), LeftParen];
    var close := [RightParen] + ([Op(leaf.cmp)] + (key + (hv + ([RightParen] + orFalse))));
    assert [RightParen, Op(leaf.cmp)] + (key + (hv + ([RightParen] + orFalse))) == close;
    var first := doc + ([Operator(ArrowText)] + (hk + close));
    assert [FunctionName(Coalesce), LeftParen, FunctionName(VersionKey), LeftParen] + first
        == [FunctionName(Coalesce), LeftParen] + (key + first);
    ToTheRight([FunctionName(Coalesce), LeftParen, FunctionName(VersionKey), LeftParen], doc, [Operator(ArrowText)], hk,
               [RightParen, Op(leaf.cmp)], key, hv, [RightParen], [Comma, KwFalse, RightParen], rest);
  }

  lemma {:induction false} Shift<X>(a: seq<X>, b: seq<X>, c: seq<X>)
    ensures a + b + c == a + (b + c)
  {
  }

  lemma {:induction false} ToTheRight<X>(a: seq<X>, b: seq<X>, c: seq<X>, d: seq<X>, e: seq<X>, f: seq<X>, g: seq<X>,
                                         h: seq<X>, i: seq<X>, rest: seq<X>)
    ensures a + b + c + d + e + f + g + h + i + rest == a + (b + (c + (d + (e + (f + (g + (h + (i + rest))))))))
  {
    Shift(a + b + c + d + e + f + g + h, i, rest);
    Shift(a + b + c + d + e + f + g, h, i + rest);
    Shift(a + b + c + d + e + f, g, h + (i + rest));
    Shift(a + b + c + d + e, f, g + (h + (i + rest)));
    Shift(a + b + c + d, e, f + (g + (h + (i + rest))));
    Shift(a + b + c, d, e + (f + (g + (h + (i + rest)))));
    Shift(a + b, c, d + (e + (f + (g + (h + (i + rest))))));
    Shift(a, b, c + (d + (e + (f + (g + (h + (i + rest)))))));
  }

  lemma {:induction false} ReadVersion(leaf: Node, k: nat, v: nat, rest: seq<Token>, p: nat)
    requires leaf.Version?
    ensures Parse(LeafText(leaf, k, v) + rest, p) == Continue(LeafExpr(leaf, k, v), rest, p)
  {
    var orFalse := [Comma] + ([KwFalse] + ([RightParen] + rest));
    var second := Hole(v, AsText) + ([RightParen] + orFalse);
    var right := [FunctionName(VersionKey), LeftParen] + second;
    var close := [RightParen] + ([Op(leaf.cmp)] + right);
    var first := DocColumn(leaf.source) + ([Operator(ArrowText)] + (Hole(k, AsText) + close));
    var inner := [FunctionName(VersionKey), LeftParen] + first;
    var l := Call(VersionKey, [Apply(ArrowText, DocExpr(leaf.source), HoleExpr(k, AsText))]);
    var r := Call(VersionKey, [HoleExpr(v, AsText)]);
    VersionShape(leaf, k, v, rest);
    ReadVersionSide(leaf.source, k, [Op(leaf.cmp)] + right);
    assert Operand(right, 5) == Done(r, orFalse) by {
      ReadHole(v, AsText, [RightParen] + orFalse, 0);
      assert right[1..][1..] == second && ([RightParen] + orFalse)[1..] == orFalse;
      assert Arguments(second) == DoneArgs([HoleExpr(v, AsText)], orFalse);
    }
    assert Parse(right, 5) == Done(r, orFalse);
    ReadCompare(l, Op(leaf.cmp).cmp, right, r, orFalse, 0);
    assert Parse(inner, 0) == Done(Compare(Op(leaf.cmp).cmp, l, r), orFalse);
    ReadOrFalse(Compare(Op(leaf.cmp).cmp, l, r), inner, rest);
    var ts := LeafText(leaf, k, v) + rest;
    assert ts[1..][1..] == inner;
  }

  lemma {:induction false} ReadVersionSide(source: Source, k: nat, rest: seq<Token>)
    ensures Operand([FunctionName(VersionKey), LeftParen]
                    + (DocColumn(source) + ([Operator(ArrowText)] + (Hole(k, AsText) + ([RightParen] + rest)))), 0)
         == Done(Call(VersionKey, [Apply(ArrowText, DocExpr(source), HoleExpr(k, AsText))]), rest)
  {
    var close := [RightParen] + rest;
    var first := DocColumn(source) + ([Operator(ArrowText)] + (Hole(k, AsText) + close));
    var lookup := Apply(ArrowText, DocExpr(source), HoleExpr(k, AsText));
    ReadLookup(source, ArrowText, k, AsText, close, 0);
    assert Parse(first, 0) == Done(lookup, close);
    assert close[1..] == rest;
    assert Arguments(first) == DoneArgs([lookup], rest);
    var ts := [FunctionName(VersionKey), LeftParen] + first;
    assert ts[1..][1..] == first;
  }

  lemma {:induction false} NumberShape(leaf: Node, k: nat, v: nat, rest: seq<Token>)
    requires leaf.Number?
    ensures
      var elseFalse := [KwElse] + ([KwFalse] + ([KwEnd] + rest));
      var cast := [CastTo(AsNumeric)] + ([Op(leaf.cmp)] + (Hole(v, AsNumeric) + elseFalse));
      var paren := DocColumn(leaf.source) + ([Operator(ArrowText)] + (Hole(k, AsText) + ([RightParen] + cast)));
      var pattern := [Quoted(DECIMAL_PATTERN)] + ([KwThen] + ([LeftParen] + paren));
      LeafText(leaf, k, v) + rest
      == [KwCase, KwWhen]
         + (DocColumn(leaf.source) + ([Operator(ArrowText)] + (Hole(k, AsText) + ([Operator(Matches)] + pattern))))
  {
    var doc, key, bound := DocColumn(leaf.source), Hole(k, AsText), Hole(v, AsNumeric);
    var arrow, cast, tail := [Operator(ArrowText)], [RightParen, CastTo(AsNumeric), Op(leaf.cmp)],
        [KwElse, KwFalse, KwEnd];
    var mid := [Operator(Matches), Quoted(DECIMAL_PATTERN), KwThen, LeftParen];
    Nest(doc, arrow, key, cast, bound, tail, rest);
    var paren := doc + (arrow + (key + (cast + (bound + (tail + rest)))));
    Nest([KwCase, KwWhen], doc, arrow, key, mid, doc + arrow + key + cast + bound + tail, rest);
    assert LeafText(leaf, k, v) ==
        [KwCase, KwWhen] + doc + arrow + key + mid + (doc + arrow + key + cast + bound + tail);
  }

  lemma {:induction false} Nest(a: seq<Token>, b: seq<Token>, c: seq<Token>, d: seq<Token>, e: seq<Token>,
                                f: seq<Token>, rest: seq<Token>)
    ensures a + b + c + d + e + f + rest == a + (b + (c + (d + (e + (f + rest)))))
  {
  }

  /** `column ->> key ~ pattern`, the guard. */
  lemma {:induction false} ReadGuard(source: Source, k: nat, rest: seq<Token>)
    requires rest != [] && rest[0] == KwThen
    ensures Parse(DocColumn(source) + ([Operator(ArrowText)] + (Hole(k, AsText)
                  + ([Operator(Matches)] + ([Quoted(DECIMAL_PATTERN)] + rest)))), 0)
         == Done(Apply(Matches, Apply(ArrowText, DocExpr(source), HoleExpr(k, AsText)), Text(DECIMAL_PATTERN)), rest)
  {
    var pattern := [Quoted(DECIMAL_PATTERN)] + rest;
    ReadLookup(source, ArrowText, k, AsText, [Operator(Matches)] + pattern, 0);
    assert ([Operator(Matches)] + pattern)[1..] == pattern && pattern[1..] == rest;
    assert Operand(pattern, 6) == Done(Text(DECIMAL_PATTERN), rest);
    assert Parse(pattern, 6) == Done(Text(DECIMAL_PATTERN), rest);
  }

  /** `(column ->> key)::numeric op ($v)::numeric`, the guarded comparison. */
  lemma {:induction false} ReadNumeric(source: Source, cmp: Cmp, k: nat, v: nat, rest: seq<Token>)
    requires rest != [] && rest[0] == KwElse
    ensures Parse([LeftParen] + (DocColumn(source) + ([Operator(ArrowText)] + (Hole(k, AsText)
                  + ([RightParen] + ([CastTo(AsNumeric)] + ([Op(cmp)] + (Hole(v, AsNumeric) + rest))))))), 0)
         == Done(Compare(Op(cmp).cmp,
                         Cast(Apply(ArrowText, DocExpr(source), HoleExpr(k, AsText)), AsNumeric),
                         HoleExpr(v, AsNumeric)), rest)
  {
    var lookup := Apply(ArrowText, DocExpr(source), HoleExpr(k, AsText));
    var bound := Hole(v, AsNumeric) + rest;
    var compare := [Op(cmp)] + bound;
    var cast := [CastTo(AsNumeric)] + compare;
    var paren := DocColumn(source) + ([Operator(ArrowText)] + (Hole(k, AsText) + ([RightParen] + cast)));
    assert Parse([LeftParen] + paren, 0) == Continue(lookup, cast, 0) by {
      ReadLookup(source, ArrowText, k, AsText, [RightParen] + cast, 0);
      ReadParens(paren, cast, 0);
    }
    assert Continue(lookup, cast, 0) == Continue(Cast(lookup, AsNumeric), compare, 0) by {
      assert cast[1..] == compare;
    }
    assert Parse(bound, 5) == Done(HoleExpr(v, AsNumeric), rest) by { ReadHole(v, AsNumeric, rest, 5); }
    ReadCompare(Cast(lookup, AsNumeric), Op(cmp).cmp, bound, HoleExpr(v, AsNumeric), rest, 0);
  }

  lemma {:induction false} ReadNumber(leaf: Node, k: nat, v: nat, rest: seq<Token>, p: nat)
    requires leaf.Number?
    ensures Parse(LeafText(leaf, k, v) + rest, p) == Continue(LeafExpr(leaf, k, v), rest, p)
  {
    NumberShape(leaf, k, v, rest);
    var elseFalse := [KwElse] + ([KwFalse] + ([KwEnd] + rest));
    var cast := [CastTo(AsNumeric)] + ([Op(leaf.cmp)] + (Hole(v, AsNumeric) + elseFalse));
    var paren := DocColumn(leaf.source) + ([Operator(ArrowText)] + (Hole(k, AsText) + ([RightParen] + cast)));
    var yes := [LeftParen] + paren;
    var arm := [KwThen] + yes;
    var guard := DocColumn(leaf.source)
      + ([Operator(ArrowText)] + (Hole(k, AsText) + ([Operator(Matches)] + ([Quoted(DECIMAL_PATTERN)] + arm))));
    ReadGuard(leaf.source, k, arm);
    ReadNumeric(leaf.source, leaf.cmp, k, v, elseFalse);
    var e := LeafExpr(leaf, k, v);
    ReadArms(guard, e.cond, yes, e.yes, rest);
    ReadCase(guard, e, rest, p);
  }

  lemma {:induction false} ReadFalse(rest: seq<Token>)
    requires Ends(rest, 0)
    ensures Parse([KwFalse] + rest, 0) == Done(S.Bool(false), rest)
  {
    assert ([KwFalse] + rest)[1..] == rest;
    assert Operand([KwFalse] + rest, 0) == Done(S.Bool(false), rest);
  }

  lemma {:induction false} ReadArms(guard: seq<Token>, c: Expr, arm: seq<Token>, y: Expr, rest: seq<Token>)
    requires Parse(guard, 0) == Done(c, [KwThen] + arm)
    requires Parse(arm, 0) == Done(y, [KwElse] + ([KwFalse] + ([KwEnd] + rest)))
    ensures CaseArms(guard) == Done(Case(c, y, S.Bool(false)), rest)
  {
    var f := [KwFalse] + ([KwEnd] + rest);
    ReadExpected(Done(c, [KwThen] + arm), KwThen, arm);
    ReadExpected(Done(y, [KwElse] + f), KwElse, f);
    ReadFalse([KwEnd] + rest);
    ReadExpected(Done(S.Bool(false), [KwEnd] + rest), KwEnd, rest);
  }

  lemma {:induction false} ReadCase(guard: seq<Token>, e: Expr, rest: seq<Token>, p: nat)
    requires CaseArms(guard) == Done(e, rest)
    ensures Parse([KwCase, KwWhen] + guard, p) == Continue(e, rest, p)
  {
    var ts := [KwCase, KwWhen] + guard;
    assert ts[1..][0] == KwWhen && ts[1..][1..] == guard;
  }

  lemma {:induction false} ReadExpected(r: Parsed, t: Token, rest: seq<Token>)
    requires r.Done? && r.rest == [t] + rest
    ensures Expect(r, t) == Done(r.e, rest)
  {
    assert ([t] + rest)[1..] == rest;
  }

  lemma {:induction false} ReadExists(leaf: Node, k: nat, v: nat, rest: seq<Token>, p: nat)
    requires leaf.Exists? && p <= 2
    ensures Parse(LeafText(leaf, k, v) + rest, p) == Continue(LeafExpr(leaf, k, v), rest, p)
  {
    var tail := [IsNotNull] + rest;
    assert LeafText(leaf, k, v) + rest == DocColumn(leaf.source) + ([Operator(Arrow)] + (Hole(k, AsText) + tail));
    ReadLookup(leaf.source, Arrow, k, AsText, tail, p);
    assert tail[1..] == rest;
  }

  lemma {:induction false} ReadIs(leaf: Node, k: nat, v: nat, rest: seq<Token>, p: nat)
    requires leaf.Is? && p <= 2 && Ends(rest, 2)
    ensures Parse(LeafText(leaf, k, v) + rest, p) == Continue(LeafExpr(leaf, k, v), rest, p)
  {
    if leaf.value.Composite() {
      var right := Hole(v, AsJsonb) + rest;
      var tail := [Comparison(Eq)] + right;
      assert LeafText(leaf, k, v) + rest == DocColumn(leaf.source) + ([Operator(Arrow)] + (Hole(k, AsText) + tail));
      ReadLookup(leaf.source, Arrow, k, AsText, tail, p);
      assert tail[1..] == right;
      ReadHole(v, AsJsonb, rest, 5);
      assert Parse(right, 5) == Done(HoleExpr(v, AsJsonb), rest);
    } else {
      assert LeafText(leaf, k, v) + rest ==
          DocColumn(leaf.source) + ([Operator(ContainsSym)] + (Hole(k, AsJsonb) + rest));
      ReadLookup(leaf.source, ContainsSym, k, AsJsonb, rest, p);
    }
  }

  lemma {:induction false} ReadLeaf(leaf: Node, k: nat, v: nat, rest: seq<Token>, p: nat)
    requires IsLeaf(leaf) && p <= 2 && Ends(rest, 2)
    ensures Parse(LeafText(leaf, k, v) + rest, p) == Continue(LeafExpr(leaf, k, v), rest, p)
  {
    match leaf
    case UserKey(_) => ReadColumnHole(DtUserKey, k, AsText, rest, p);
    case Issue(_) => ReadIssue(leaf, k, v, rest, p);
    case Exists(_, _) => ReadExists(leaf, k, v, rest, p);
    case Is(_, _, _) => ReadIs(leaf, k, v, rest, p);
    case Prefix(_, _, _) => ReadPrefix(leaf, k, v, rest, p);
    case Number(_, _, _, _) => ReadNumber(leaf, k, v, rest, p);
    case Version(_, _, _, _) => ReadVersion(leaf, k, v, rest, p);
  }

  // -------------------------------------------------------------- whole trees

  /** Reading a fragment in any place the compiler puts one. */
  lemma {:induction false} ReadNode(node: Node, n: nat, rest: seq<Token>, p: nat)
    requires p <= 2 && Ends(rest, 2)
    ensures NoEmptyAny(node) ==> Parse(Fragment(node, n) + rest, p) == Continue(Intended(node, n), rest, p)
    ensures !NoEmptyAny(node) ==> Parse(Fragment(node, n) + rest, p) == Fail
    decreases node, 1
  {
    var ts := Fragment(node, n) + rest;
    match node
    case All(items) =>
      if items == [] {
        assert NoneEmpty(items) && ts[1..] == rest;
        assert Operand(ts, p) == Done(S.Bool(true), rest);
      } else {
        ReadGroup(node, items, KwAnd, n, rest, p);
      }
    case Any(items) =>
      if items == [] {
        assert Joined(items, KwOr, n) == [];
        assert ts == [LeftParen, RightParen] + rest;
        assert ts[1..] == [RightParen] + rest;
        assert Parse(ts[1..], 0) == Fail;
      } else {
        ReadGroup(node, items, KwOr, n, rest, p);
      }
    case Not(inner) => ReadNot(node, inner, n, rest, p);
    case Never =>
      assert ts[1..] == rest;
      assert Operand(ts, p) == Done(S.Bool(false), rest);
    case _ => ReadLeaf(node, n, n + 1, rest, p);
  }

  lemma {:induction false} ReadNot(node: Node, inner: Node, n: nat, rest: seq<Token>, p: nat)
    requires p <= 2 && Ends(rest, 2) && node == T.Not(inner)
    ensures Parse(Fragment(node, n) + rest, p)
         == if NoEmptyAny(node) then Continue(Intended(node, n), rest, p) else Fail
    decreases node, 0
  {
    var ts := Fragment(node, n) + rest;
    var end := [RightParen] + rest;
    var part := Fragment(inner, n);
    var group := [LeftParen] + (part + end);
    assert ts == [KwNot] + group;
    assert ts[1..] == group;
    ReadParen(inner, n, rest);
    if NoEmptyAny(inner) {
      assert Operand(ts, p) == Done(S.Not(Intended(inner, n)), rest);
    }
  }

  lemma {:induction false} ReadParen(inner: Node, n: nat, rest: seq<Token>)
    requires Ends(rest, 2)
    ensures Parse([LeftParen] + (Fragment(inner, n) + ([RightParen] + rest)), 3)
         == if NoEmptyAny(inner) then Done(Intended(inner, n), rest) else Fail
    decreases inner, 2
  {
    var end := [RightParen] + rest;
    var part := Fragment(inner, n);
    var group := [LeftParen] + (part + end);
    assert group[1..] == part + end && end[1..] == rest;
    ReadNode(inner, n, end, 0);
    hide Fragment, Intended, NoEmptyAny;
    assert Operand(group, 3) == if NoEmptyAny(inner) then Done(Intended(inner, n), rest) else Fail;
  }

  /** Text in parentheses, one branch or a first branch and more. */
  lemma {:induction false} Wrap(part: seq<Token>, sep: Token, more: seq<Token>, rest: seq<Token>)
    ensures [LeftParen] + part + [RightParen] + rest == [LeftParen] + (part + ([RightParen] + rest))
    ensures [LeftParen] + (part + ([sep] + more)) + [RightParen] + rest
         == [LeftParen] + (part + ([sep] + (more + ([RightParen] + rest))))
  {
  }

  lemma {:induction false} GroupShape(node: Node, items: seq<Node>, sep: Token, n: nat, rest: seq<Token>)
    requires items != []
    requires (sep == KwAnd && node == All(items)) || (sep == KwOr && node == Any(items))
    ensures
      var end := [RightParen] + rest;
      var m := n + Taken(items[0]);
      var tail := if |items| == 1 then end else [sep] + (Joined(items[1..], sep, m) + end);
      Fragment(node, n) + rest == [LeftParen] + (Fragment(items[0], n) + tail)
  {
    Wrap(Fragment(items[0], n), sep, Joined(items[1..], sep, n + Taken(items[0])), rest);
  }

  /** What stands between the parentheses of a group, and what it reads as. */
  lemma {:induction false} GroupBody(node: Node, items: seq<Node>, sep: Token, n: nat, rest: seq<Token>)
    returns (body: seq<Token>)
    requires items != []
    requires (sep == KwAnd && node == All(items)) || (sep == KwOr && node == Any(items))
    ensures Fragment(node, n) + rest == [LeftParen] + body
    ensures Parse(body, 0) == if NoEmptyAny(node) then Done(Intended(node, n), [RightParen] + rest) else Fail
    decreases node, 0, |items| + 1
  {
    hide Parse, Continue, Operand;
    var m := n + Taken(items[0]);
    var end := [RightParen] + rest;
    var tail := if |items| == 1 then end else [sep] + (Joined(items[1..], sep, m) + end);
    body := Fragment(items[0], n) + tail;
    GroupShape(node, items, sep, n, rest);
    ReadBranches(items, sep, n, rest, node);
  }

  lemma {:induction false} ReadGroup(node: Node, items: seq<Node>, sep: Token, n: nat, rest: seq<Token>, p: nat)
    requires items != [] && p <= 2
    requires (sep == KwAnd && node == All(items)) || (sep == KwOr && node == Any(items))
    ensures Parse(Fragment(node, n) + rest, p)
         == if NoEmptyAny(node) then Continue(Intended(node, n), rest, p) else Fail
    decreases node, 0, |items| + 2
  {
    var body := GroupBody(node, items, sep, n, rest);
    ReadParens(body, rest, p);
  }

  /** All the branches of a group, up to its closing parenthesis. */
  lemma {:induction false} ReadBranches(items: seq<Node>, sep: Token, n: nat, rest: seq<Token>, whole: Node)
    requires items != [] && (sep == KwAnd || sep == KwOr)
    requires forall i | 0 <= i < |items| :: items[i] < whole
    ensures
      var end := [RightParen] + rest;
      var m := n + Taken(items[0]);
      var tail := if |items| == 1 then end else [sep] + (Joined(items[1..], sep, m) + end);
      var left := Intended(items[0], n);
      Parse(Fragment(items[0], n) + tail, 0)
      == if NoneEmpty(items)
         then Done(if sep == KwAnd then Conjunction(left, items[1..], m) else Disjunction(left, items[1..], m), end)
         else Fail
    decreases whole, 0, |items|
  {
    hide Parse, Continue, Operand, Fragment, Intended, Conjunction, Disjunction, Joined, Taken, NoneEmpty, NoEmptyAny;
    var end := [RightParen] + rest;
    var more := items[1..];
    var m := n + Taken(items[0]);
    var tail := if more == [] then end else [sep] + (Joined(more, sep, m) + end);
    NoneEmptyHead(items);
    assert more == [] <==> |items| == 1;
    assert forall i | 0 <= i < |more| :: more[i] == items[i + 1];
    ReadNode(items[0], n, tail, 0);
    if NoEmptyAny(items[0]) { ReadMore(Intended(items[0], n), more, sep, m, rest, whole); }
  }

  lemma {:induction false} NoneEmptyHead(items: seq<Node>)
    requires items != []
    ensures NoneEmpty(items) <==> NoEmptyAny(items[0]) && NoneEmpty(items[1..])
  {
  }

  /** The branches after the first, each behind its separator. */
  lemma {:induction false} ReadMore(left: Expr, items: seq<Node>, sep: Token, n: nat, rest: seq<Token>, whole: Node)
    requires sep == KwAnd || sep == KwOr
    requires forall i | 0 <= i < |items| :: items[i] < whole
    ensures var end := [RightParen] + rest;
      var tail := if items == [] then end else [sep] + (Joined(items, sep, n) + end);
      Continue(left, tail, 0)
      == if NoneEmpty(items)
         then Done(if sep == KwAnd then Conjunction(left, items, n) else Disjunction(left, items, n), end)
         else Fail
    decreases whole, 0, |items|
  {
    var end := [RightParen] + rest;
    if items != [] {
      var m := n + Taken(items[0]);
      var more := if |items| == 1 then end else [sep] + (Joined(items[1..], sep, m) + end);
      assert Joined(items, sep, n) + end == Fragment(items[0], n) + more;
      ReadOne(left, items[0], sep, n, more);
      if NoEmptyAny(items[0]) {
        ReadMore(Chained(left, items[0], sep, n), items[1..], sep, m, rest, whole);
      }
    }
    hide Continue, Parse, Fragment, Intended;
  }

  function Chained(left: Expr, item: Node, sep: Token, n: nat): Expr {
    if sep == KwAnd then And(left, Intended(item, n)) else Or(left, Intended(item, n))
  }

  /** One branch behind its separator, up to the next or the end of the group. */
  lemma {:induction false} ReadOne(left: Expr, item: Node, sep: Token, n: nat, more: seq<Token>)
    requires (sep == KwAnd || sep == KwOr) && more != [] && (more[0] == sep || more[0] == RightParen)
    ensures Continue(left, [sep] + (Fragment(item, n) + more), 0)
         == if NoEmptyAny(item) then Continue(Chained(left, item, sep, n), more, 0) else Fail
    decreases item, 2
  {
    hide Fragment, Intended, NoEmptyAny;
    var right := Fragment(item, n) + more;
    assert ([sep] + right)[1..] == right;
    ReadNode(item, n, more, if sep == KwAnd then 2 else 1);
  }

  /** The whole `WHERE` condition reads back as intended, and only a tree holding
      an empty disjunction compiles to something that is not SQL. */
  lemma {:induction false} FragmentParses(node: Node, n: nat)
    ensures Parse(Fragment(node, n), 0)
         == if NoEmptyAny(node) then Done(Intended(node, n), []) else Fail
  {
    assert Fragment(node, n) + [] == Fragment(node, n);
    ReadNode(node, n, [], 0);
  }
}
