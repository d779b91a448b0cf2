/** `audience.rs`, compile half: an expression becomes a `WHERE` fragment with
    numbered placeholders, and the values they stand for. */
module AudienceCompiler {
  import opened Json
  import opened AudienceTree
  import opened Sql

  function DocColumn(source: Source): seq<Token> {
    [FunctionName(Coalesce), LeftParen, Name(if source.Trait? then DtTraits else DtMetadata), Comma,
     Quoted("{}"), CastTo(AsJsonb), RightParen]
  }

  function Op(cmp: Cmp): Token {
    Comparison(match cmp case Gte => Ge case Gt => ComparisonSym.Gt case Lte => Le case Lt => ComparisonSym.Lt)
  }

  function Hole(n: nat, ty: SqlType): seq<Token> {
    [LeftParen, Placeholder(n), RightParen, CastTo(ty)]
  }

  /** The bind values a tree needs, in the order they are taken. */
  function Binds(node: Node, floatText: real -> string): seq<Bind> {
    match node
    case All(items) => BindsOf(items, floatText)
    case Any(items) => BindsOf(items, floatText)
    case Not(inner) => Binds(inner, floatText)
    case UserKey(key) => [BindText(key)]
    case Issue(id) => [BindUuid(id)]
    case Exists(_, key) => [BindText(key)]
    case Is(_, key, value) =>
      if value.Composite() then [BindText(key), BindJson(value)] else [BindJson(JObject(map[key := value]))]
    case Prefix(_, key, text) => [BindText(key), BindText(text)]
    case Number(_, key, _, bound) => [BindText(key), BindText(floatText(bound))]
    case Version(_, key, _, version) => [BindText(key), BindText(version)]
    case Never => []
  }

  function BindsOf(items: seq<Node>, floatText: real -> string): seq<Bind> {
    if items == [] then [] else Binds(items[0], floatText) + BindsOf(items[1..], floatText)
  }

  /** How many placeholders a tree takes. */
  function Taken(node: Node): nat {
    match node
    case All(items) => TakenBy(items)
    case Any(items) => TakenBy(items)
    case Not(inner) => Taken(inner)
    case UserKey(_) => 1
    case Issue(_) => 1
    case Exists(_, _) => 1
    case Is(_, _, value) => if value.Composite() then 2 else 1
    case Prefix(_, _, _) => 2
    case Number(_, _, _, _) => 2
    case Version(_, _, _, _) => 2
    case Never => 0
  }

  function TakenBy(items: seq<Node>): nat {
    if items == [] then 0 else Taken(items[0]) + TakenBy(items[1..])
  }

  predicate IsLeaf(node: Node) {
    !node.All? && !node.Any? && !node.Not? && !node.Never?
  }

  /** The template of a leaf, `k` and `v` being its placeholders. */
  function LeafText(leaf: Node, k: nat, v: nat): seq<Token>
    requires IsLeaf(leaf)
  {
    match leaf
    case UserKey(_) => [Name(DtUserKey), Comparison(Eq)] + Hole(k, AsText)
    case Issue(_) =>
      [HitsWhere, Name(IhIssue), Comparison(Eq)] + Hole(k, AsUuid)
      + [KwAnd, Name(IProject), Comparison(Eq), Name(DtProject),
         KwAnd, Name(IhUserKey), Comparison(Eq), Name(DtUserKey), RightParen]
    case Exists(source, _) => DocColumn(source) + [Operator(Arrow)] + Hole(k, AsText) + [IsNotNull]
    case Is(source, _, value) =>
      if value.Composite() then
        DocColumn(source) + [Operator(Arrow)] + Hole(k, AsText) + [Comparison(Eq)] + Hole(v, AsJsonb)
      else
        DocColumn(source) + [Operator(ContainsSym)] + Hole(k, AsJsonb)
    case Prefix(source, _, _) =>
      [FunctionName(Coalesce), LeftParen, FunctionName(StartsWith), LeftParen]
      + DocColumn(source) + [Operator(ArrowText)] + Hole(k, AsText) + [Comma] + Hole(v, AsText)
      + [RightParen, Comma, KwFalse, RightParen]
    case Number(source, _, cmp, _) =>
      [KwCase, KwWhen] + DocColumn(source) + [Operator(ArrowText)] + Hole(k, AsText)
      + [Operator(Matches), Quoted(DECIMAL_PATTERN), KwThen, LeftParen]
      + DocColumn(source) + [Operator(ArrowText)] + Hole(k, AsText) + [RightParen, CastTo(AsNumeric), Op(cmp)]
      + Hole(v, AsNumeric) + [KwElse, KwFalse, KwEnd]
    case Version(source, _, cmp, _) =>
      [FunctionName(Coalesce), LeftParen, FunctionName(VersionKey), LeftParen]
      + DocColumn(source) + [Operator(ArrowText)] + Hole(k, AsText) + [RightParen, Op(cmp)]
      + [FunctionName(VersionKey), LeftParen] + Hole(v, AsText) + [RightParen]
      + [Comma, KwFalse, RightParen]
  }

  /** The text of the fragment when its first placeholder is `$n`. */
  function Fragment(node: Node, n: nat): seq<Token> {
    match node
    case All(items) => if items == [] then [KwTrue] else [LeftParen] + Joined(items, KwAnd, n) + [RightParen]
    case Any(items) => [LeftParen] + Joined(items, KwOr, n) + [RightParen]
    case Not(inner) => [KwNot, LeftParen] + Fragment(inner, n) + [RightParen]
    case Never => [KwFalse]
    case _ => LeafText(node, n, n + 1)
  }

  function Joined(items: seq<Node>, sep: Token, n: nat): seq<Token> {
    if items == [] then []
    else if |items| == 1 then Fragment(items[0], n)
    else Fragment(items[0], n) + ([sep] + Joined(items[1..], sep, n + Taken(items[0])))
  }

  lemma {:induction false} TakenIsBinds(node: Node, floatText: real -> string)
    ensures |Binds(node, floatText)| == Taken(node)
  {
    match node
    case All(items) => TakenIsBindsOf(items, floatText);
    case Any(items) => TakenIsBindsOf(items, floatText);
    case Not(inner) => TakenIsBinds(inner, floatText);
    case _ =>
  }

  lemma {:induction false} TakenIsBindsOf(items: seq<Node>, floatText: real -> string)
    ensures |BindsOf(items, floatText)| == TakenBy(items)
  {
    if items != [] {
      TakenIsBinds(items[0], floatText);
      TakenIsBindsOf(items[1..], floatText);
    }
  }

  /** What a join still has to write once `i` branches are out. */
  ghost function JoinTail(items: seq<Node>, sep: Token, i: nat, n: nat): seq<Token>
    requires i <= |items|
  {
    if i == |items| then [] else (if i == 0 then [] else [sep]) + Joined(items[i..], sep, n)
  }

  lemma {:induction false} JoinedHead(s: seq<Node>, sep: Token, n: nat)
    requires s != []
    ensures Joined(s, sep, n) ==
            Fragment(s[0], n) + if |s| == 1 then [] else [sep] + Joined(s[1..], sep, n + Taken(s[0]))
  {
    hide Fragment, Taken;
    if |s| == 1 { assert Fragment(s[0], n) + [] == Fragment(s[0], n); }
  }

  lemma JoinStep(items: seq<Node>, sep: Token, i: nat, n: nat)
    requires i < |items|
    ensures JoinTail(items, sep, i, n)
         == (if i == 0 then [] else [sep]) + Fragment(items[i], n) + JoinTail(items, sep, i + 1, n + Taken(items[i]))
  {
    var s := items[i..];
    assert s[1..] == items[i + 1..] && s[0] == items[i];
    JoinedHead(s, sep, n);
    hide Fragment, Taken, Joined;
    var before := if i == 0 then [] else [sep];
    var part, rest := Fragment(s[0], n), JoinTail(items, sep, i + 1, n + Taken(s[0]));
    assert Joined(s, sep, n) == part + rest;
    assert before + (part + rest) == before + part + rest;
  }

  /** One more branch is out. */
  lemma {:induction false} TextTurn(text: seq<Token>, items: seq<Node>, sep: Token, i: nat, n: nat, whole: seq<Token>)
    requires i < |items| && text + JoinTail(items, sep, i, n) == whole
    ensures text + (if i == 0 then [] else [sep]) + Fragment(items[i], n)
            + JoinTail(items, sep, i + 1, n + Taken(items[i])) == whole
  {
    hide *;
    JoinStep(items, sep, i, n);
    var tail := JoinTail(items, sep, i + 1, n + Taken(items[i]));
    Regroup(text, if i == 0 then [] else [sep], Fragment(items[i], n), tail);
  }

  /** Nothing is written yet, and all of it is. */
  lemma {:induction false} JoinEnds(items: seq<Node>, sep: Token, n: nat, floatText: real -> string)
    ensures JoinTail(items, sep, 0, n) == Joined(items, sep, n) && JoinTail(items, sep, |items|, n) == []
    ensures TakenBy([]) == 0 && BindsOf([], floatText) == []
  {
    hide Fragment;
    assert items[0..] == items;
  }

  lemma Regroup<X>(a: seq<X>, b: seq<X>, c: seq<X>, d: seq<X>)
    ensures a + (b + c + d) == a + b + c + d
    ensures b == [] ==> a + (c + d) == a + c + d
  {
  }

  lemma CountStep(items: seq<Node>, i: nat, floatText: real -> string)
    requires i < |items|
    ensures TakenBy(items[i..]) == Taken(items[i]) + TakenBy(items[i + 1..])
    ensures BindsOf(items[i..], floatText) == Binds(items[i], floatText) + BindsOf(items[i + 1..], floatText)
  {
    assert items[i..][1..] == items[i + 1..] && items[i..][0] == items[i];
  }

  /** The walk that writes the fragment: `next` and `binds` advance together. */
  class Emitter {
    var next: nat
    var binds: seq<Bind>
    const floatText: real -> string

    constructor (first: nat, floatText: real -> string)
      ensures next == first && binds == [] && this.floatText == floatText
    {
      next := first;
      binds := [];
      this.floatText := floatText;
    }

    method Take(bind: Bind) returns (n: nat)
      modifies this
      ensures n == old(next) && next == old(next) + 1 && binds == old(binds) + [bind]
    {
      n := next;
      next := next + 1;
      binds := binds + [bind];
    }

    method Compile(node: Node) returns (sql: seq<Token>)
      modifies this
      ensures sql == Fragment(node, old(next))
      ensures next == old(next) + Taken(node)
      ensures binds == old(binds) + Binds(node, floatText)
      decreases node, 0
    {
      hide LeafText, Joined;
      match node
      case All(items) =>
        if items == [] {
          sql := [KwTrue];
        } else {
          sql := Join(items, KwAnd, node);
        }
      case Any(items) =>
        sql := Join(items, KwOr, node);
      case Not(inner) =>
        var s := Compile(inner);
        sql := [KwNot, LeftParen] + s + [RightParen];
      case Never =>
        sql := [KwFalse];
      case UserKey(key) =>
        var p := Take(BindText(key));
        sql := LeafText(node, p, p + 1);
      case Issue(id) =>
        var p := Take(BindUuid(id));
        sql := LeafText(node, p, p + 1);
      case Exists(source, key) =>
        var p := Take(BindText(key));
        sql := LeafText(node, p, p + 1);
      case Is(source, key, value) =>
        if value.Composite() {
          var k := Take(BindText(key));
          var v := Take(BindJson(value));
          sql := LeafText(node, k, v);
        } else {
          var p := Take(BindJson(JObject(map[key := value])));
          sql := LeafText(node, p, p + 1);
        }
      case Prefix(source, key, text) =>
        var k := Take(BindText(key));
        var v := Take(BindText(text));
        sql := LeafText(node, k, v);
      case Number(source, key, cmp, bound) =>
        var k := Take(BindText(key));
        var v := Take(BindText(floatText(bound)));
        sql := LeafText(node, k, v);
      case Version(source, key, cmp, version) =>
        var k := Take(BindText(key));
        var v := Take(BindText(version));
        sql := LeafText(node, k, v);
    }

    /** Compile each branch, joined by the separator, in one pair of parentheses. */
    method Join(items: seq<Node>, sep: Token, ghost whole: Node) returns (sql: seq<Token>)
      requires forall i | 0 <= i < |items| :: items[i] < whole
      modifies this
      ensures sql == [LeftParen] + Joined(items, sep, old(next)) + [RightParen]
      ensures next == old(next) + TakenBy(items)
      ensures binds == old(binds) + BindsOf(items, floatText)
      decreases whole, 0, 0
    {
      hide Joined, JoinTail, Fragment, LeafText, TakenBy, BindsOf, Binds, Taken;
      var text := [];
      ghost var start, taken := next, binds;
      assert items[0..] == items;
      JoinEnds(items, sep, start, floatText);
      for i := 0 to |items|
        invariant next + TakenBy(items[i..]) == start + TakenBy(items)
        invariant binds + BindsOf(items[i..], floatText) == taken + BindsOf(items, floatText)
        invariant text + JoinTail(items, sep, i, next) == JoinTail(items, sep, 0, start)
      {
        TextTurn(text, items, sep, i, next, JoinTail(items, sep, 0, start));
        CountStep(items, i, floatText);
        Regroup(binds, [], Binds(items[i], floatText), BindsOf(items[i + 1..], floatText));
        var part := Compile(items[i]);
        text := text + (if i == 0 then [] else [sep]) + part;
      }
      JoinEnds(items, sep, next, floatText);
      assert items[|items|..] == [];
      assert text + [] == text && binds + [] == binds;
      sql := [LeftParen] + text + [RightParen];
    }
  }

  /** `Audience::to_sql`. */
  method ToSql(root: Node, first: nat, floatText: real -> string) returns (sql: seq<Token>, binds: seq<Bind>)
    ensures sql == Fragment(root, first)
    ensures binds == Binds(root, floatText) && |binds| == Taken(root)
  {
    var e := new Emitter(first, floatText);
    sql := e.Compile(root);
    binds := e.binds;
    TakenIsBinds(root, floatText);
  }
}
