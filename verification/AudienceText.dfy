/** The text of a fragment: its placeholders are exactly its binds, and nothing a
    caller wrote is part of it. */
module AudienceText {
  import opened Json
  import opened AudienceTree
  import opened Sql
  import opened AudienceCompiler

  /** The placeholders of a text are exactly `$lo .. $(hi-1)`. */
  ghost predicate HolesAre(ts: seq<Token>, lo: nat, hi: nat) {
    forall k: nat :: Placeholder(k) in ts <==> lo <= k < hi
  }

  lemma HolesConcat(a: seq<Token>, b: seq<Token>, lo: nat, mid: nat, hi: nat)
    requires lo <= mid <= hi && HolesAre(a, lo, mid) && HolesAre(b, mid, hi)
    ensures HolesAre(a + b, lo, hi)
  {
  }

  lemma {:induction false} LeafHoles(leaf: Node, n: nat)
    requires IsLeaf(leaf)
    ensures HolesAre(LeafText(leaf, n, n + 1), n, n + Taken(leaf))
  {
  }

  /** A fragment mentions its own binds, all of them, and no other parameter. */
  lemma {:induction false} HolesAreBinds(node: Node, n: nat, floatText: real -> string)
    ensures HolesAre(Fragment(node, n), n, n + |Binds(node, floatText)|)
  {
    TakenIsBinds(node, floatText);
    FragmentHoles(node, n);
  }

  lemma {:induction false} FragmentHoles(node: Node, n: nat)
    ensures HolesAre(Fragment(node, n), n, n + Taken(node))
    decreases node
  {
    match node
    case All(items) =>
      if items != [] {
        JoinedHoles(items, KwAnd, n);
        HolesWrapped([LeftParen], Joined(items, KwAnd, n), n, n + TakenBy(items));
      }
    case Any(items) =>
      JoinedHoles(items, KwOr, n);
      HolesWrapped([LeftParen], Joined(items, KwOr, n), n, n + TakenBy(items));
    case Not(inner) =>
      FragmentHoles(inner, n);
      HolesWrapped([KwNot, LeftParen], Fragment(inner, n), n, n + Taken(inner));
    case Never =>
    case _ => LeafHoles(node, n);
  }

  lemma HolesWrapped(before: seq<Token>, ts: seq<Token>, lo: nat, hi: nat)
    requires lo <= hi && HolesAre(ts, lo, hi) && HolesAre(before, lo, lo)
    ensures HolesAre(before + ts + [RightParen], lo, hi)
  {
    HolesConcat(before, ts, lo, lo, hi);
    HolesConcat(before + ts, [RightParen], lo, hi, hi);
  }

  lemma {:induction false} JoinedHoles(items: seq<Node>, sep: Token, n: nat)
    requires !sep.Placeholder?
    ensures HolesAre(Joined(items, sep, n), n, n + TakenBy(items))
    decreases items
  {
    if items != [] {
      var m := n + Taken(items[0]);
      FragmentHoles(items[0], n);
      if |items| > 1 {
        JoinedHoles(items[1..], sep, m);
        HolesConcat([sep], Joined(items[1..], sep, m), m, m, n + TakenBy(items));
        HolesConcat(Fragment(items[0], n), [sep] + Joined(items[1..], sep, m), n, m, n + TakenBy(items));
      } else {
        assert items[1..] == [];
      }
    }
  }

  /** Trees that differ only in what a caller wrote: keys, ids, values, texts and
      numbers, but not the kind of any condition. */
  ghost predicate SameShape(a: Node, b: Node) {
    match (a, b)
    case (All(s), All(t)) => SameShapes(s, t)
    case (Any(s), Any(t)) => SameShapes(s, t)
    case (Not(x), Not(y)) => SameShape(x, y)
    case (UserKey(_), UserKey(_)) => true
    case (Issue(_), Issue(_)) => true
    case (Exists(s, _), Exists(t, _)) => s == t
    case (Is(s, _, v), Is(t, _, w)) => s == t && v.Composite() == w.Composite()
    case (Prefix(s, _, _), Prefix(t, _, _)) => s == t
    case (Number(s, _, c, _), Number(t, _, d, _)) => s == t && c == d
    case (Version(s, _, c, _), Version(t, _, d, _)) => s == t && c == d
    case (Never, Never) => true
    case _ => false
  }

  ghost predicate SameShapes(s: seq<Node>, t: seq<Node>) {
    if s == [] || t == [] then s == t else SameShape(s[0], t[0]) && SameShapes(s[1..], t[1..])
  }

  /** Nothing a caller wrote reaches the statement's text. */
  lemma {:induction false} TextIgnoresValues(a: Node, b: Node, n: nat)
    requires SameShape(a, b)
    ensures Fragment(a, n) == Fragment(b, n) && Taken(a) == Taken(b)
  {
    match a
    case All(items) => JoinedIgnoresValues(items, b.items, KwAnd, n);
    case Any(items) => JoinedIgnoresValues(items, b.items, KwOr, n);
    case Not(inner) => TextIgnoresValues(inner, b.inner, n);
    case _ =>
  }

  lemma {:induction false} JoinedIgnoresValues(s: seq<Node>, t: seq<Node>, sep: Token, n: nat)
    requires SameShapes(s, t)
    ensures Joined(s, sep, n) == Joined(t, sep, n) && TakenBy(s) == TakenBy(t) && (s == [] <==> t == [])
  {
    if s != [] {
      TextIgnoresValues(s[0], t[0], n);
      JoinedIgnoresValues(s[1..], t[1..], sep, n + Taken(s[0]));
    }
  }
}
