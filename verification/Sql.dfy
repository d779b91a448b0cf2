/** The fragment of PostgreSQL the audience compiler writes: tokens, expressions,
    operator precedence and three-valued evaluation. Nothing here knows about
    the compiler. */
module Sql {
  import opened Prelude
  import opened Json
  import SqlCasts
  import T = AudienceTree

  datatype SqlType = AsText | AsJsonb | AsUuid | AsNumeric

  datatype Col = DtUserKey | DtProject | DtTraits | DtMetadata | IhIssue | IhUserKey | IProject
  datatype Fun = Coalesce | StartsWith | VersionKey
  datatype OperatorSym = Arrow | ArrowText | ContainsSym | Matches   // ->  ->>  @>  ~
  datatype ComparisonSym = Eq | Ge | Gt | Le | Lt

  datatype Token =
    | LeftParen | RightParen | Comma
    | Placeholder(n: nat)
    | Name(col: Col)
    | FunctionName(fn: Fun)
    | Quoted(text: string)
    | CastTo(ty: SqlType)
    | Operator(op: OperatorSym)
    | Comparison(cmp: ComparisonSym)
    | IsNotNull
    | KwNot | KwAnd | KwOr
    | KwTrue | KwFalse
    | KwCase | KwWhen | KwThen | KwElse | KwEnd
    | HitsWhere                  // EXISTS (SELECT 1 FROM issue_user_hits ih JOIN issues i ON ... WHERE

  datatype Expr =
    | Or(l: Expr, r: Expr)
    | And(l: Expr, r: Expr)
    | Not(e: Expr)
    | NotNull(e: Expr)
    | Compare(cmp: ComparisonSym, l: Expr, r: Expr)
    | Apply(op: OperatorSym, l: Expr, r: Expr)
    | Cast(e: Expr, ty: SqlType)
    | Param(n: nat)
    | Column(col: Col)
    | Text(s: string)
    | Bool(b: bool)
    | Call(fn: Fun, args: seq<Expr>)
    | Case(cond: Expr, yes: Expr, no: Expr)
    | HitExists(where: Expr)

  // ---------------------------------------------------------------- parsing

  /** How tightly a token holds what stands to its left; 0 when it closes the
      expression. The order is section 4.1.6 of the PostgreSQL manual. */
  function Strength(t: Token): nat {
    match t
    case KwOr => 1
    case KwAnd => 2
    case IsNotNull => 4
    case Comparison(_) => 5
    case Operator(_) => 6
    case CastTo(_) => 7
    case _ => 0
  }

  const NOT_STRENGTH: nat := 3

  /** The expression read so far ends here for a reader at level `p`. */
  predicate Ends(ts: seq<Token>, p: nat) {
    ts == [] || Strength(ts[0]) <= p
  }

  datatype Parsed = Fail | Done(e: Expr, rest: seq<Token>)
  datatype ParsedArgs = FailArgs | DoneArgs(args: seq<Expr>, rest: seq<Token>)

  /** Consume one expected token. */
  function Expect(p: Parsed, t: Token): (r: Parsed)
    ensures r.Done? ==> p.Done? && r.e == p.e && |r.rest| < |p.rest|
  {
    if p.Done? && p.rest != [] && p.rest[0] == t then Done(p.e, p.rest[1..]) else Fail
  }

  /** An expression whose operators all hold tighter than `p`. */
  function Parse(ts: seq<Token>, p: nat): (r: Parsed)
    ensures r.Done? ==> |r.rest| < |ts|
    decreases |ts|, 1
  {
    var head := Operand(ts, p);
    if head.Fail? then Fail else Continue(head.e, head.rest, p)
  }

  function Operand(ts: seq<Token>, p: nat): (r: Parsed)
    ensures r.Done? ==> |r.rest| < |ts|
    decreases |ts|, 0
  {
    if ts == [] then Fail
    else
      var rest := ts[1..];
      match ts[0]
      case Placeholder(n) => Done(Param(n), rest)
      case Quoted(s) => Done(Text(s), rest)
      case KwTrue => Done(Bool(true), rest)
      case KwFalse => Done(Bool(false), rest)
      case LeftParen => Expect(Parse(rest, 0), RightParen)
      case KwNot =>
        if p >= NOT_STRENGTH then Fail
        else
          var inner := Parse(rest, NOT_STRENGTH);
          if inner.Fail? then Fail else Done(Not(inner.e), inner.rest)
      case Name(c) => Done(Column(c), rest)
      case FunctionName(f) =>
        if rest == [] || rest[0] != LeftParen then Fail
        else
          var a := Arguments(rest[1..]);
          if a.FailArgs? then Fail else Done(Call(f, a.args), a.rest)
      case KwCase => if rest == [] || rest[0] != KwWhen then Fail else CaseArms(rest[1..])
      case HitsWhere =>
        var w := Expect(Parse(rest, 0), RightParen);
        if w.Fail? then Fail else Done(HitExists(w.e), w.rest)
      case _ => Fail
  }

  /** `condition THEN a ELSE b END`. */
  function CaseArms(ts: seq<Token>): (r: Parsed)
    ensures r.Done? ==> |r.rest| < |ts|
    decreases |ts|, 2
  {
    var c := Expect(Parse(ts, 0), KwThen);
    if c.Fail? then Fail
    else
      var y := Expect(Parse(c.rest, 0), KwElse);
      if y.Fail? then Fail
      else
        var n := Expect(Parse(y.rest, 0), KwEnd);
        if n.Fail? then Fail else Done(Case(c.e, y.e, n.e), n.rest)
  }

  function Arguments(ts: seq<Token>): (r: ParsedArgs)
    ensures r.DoneArgs? ==> |r.rest| < |ts|
    decreases |ts|, 2
  {
    var a := Parse(ts, 0);
    if a.Fail? || a.rest == [] then FailArgs
    else if a.rest[0] == RightParen then DoneArgs([a.e], a.rest[1..])
    else if a.rest[0] == Comma then
      var more := Arguments(a.rest[1..]);
      if more.FailArgs? then FailArgs else DoneArgs([a.e] + more.args, more.rest)
    else FailArgs
  }

  /** `left` has been read; take every operator that holds tighter than `p`.
      Binary operators associate to the left, comparisons do not associate. */
  function Continue(left: Expr, ts: seq<Token>, p: nat): (r: Parsed)
    ensures r.Done? ==> |r.rest| <= |ts|
    decreases |ts|, 2
  {
    if Ends(ts, p) then Done(left, ts)
    else
      var rest := ts[1..];
      match ts[0]
      case CastTo(ty) => Continue(Cast(left, ty), rest, p)
      case IsNotNull => Continue(NotNull(left), rest, p)
      case KwOr =>
        var right := Parse(rest, 1);
        if right.Fail? then Fail else Continue(Or(left, right.e), right.rest, p)
      case KwAnd =>
        var right := Parse(rest, 2);
        if right.Fail? then Fail else Continue(And(left, right.e), right.rest, p)
      case Comparison(cmp) =>
        var right := Parse(rest, 5);
        if right.Fail? || (right.rest != [] && right.rest[0].Comparison?) then Fail
        else Continue(Compare(cmp, left, right.e), right.rest, p)
      case Operator(op) =>
        var right := Parse(rest, 6);
        if right.Fail? then Fail else Continue(Apply(op, left, right.e), right.rest, p)
      case _ => Fail
  }

  // ------------------------------------------------------------- evaluation

  datatype Bind = BindText(s: string) | BindJson(j: Json) | BindUuid(id: int)

  /** A value, SQL NULL, or an error that aborts the statement. */
  datatype Value =
    | Abort
    | Null
    | VBool(b: bool)
    | VText(s: string)
    | VNumeric(r: real)
    | VJson(j: Json)
    | VUuid(id: int)
    | VInt(i: int)
    | VKey(k: seq<int>)

  /** Which side of a connective is evaluated first; the other is left out when the first
      decides. `Both` leaves nothing out. The manual promises no order (section 4.2.14). */
  datatype Order = LeftFirst | RightFirst | Both

  /** Where an expression is evaluated: a device row, the parameters of the statement (`$1`
      first), inside the subquery one joined hit, and the order of each connective. */
  datatype Scope = Scope(world: T.World, params: seq<Bind>, hit: Option<T.Hit>, order: Expr -> Order)

  ghost function OptText(o: Option<string>): Value {
    if o.Some? then VText(o.value) else Null
  }

  ghost function ColumnValue(col: Col, scope: Scope): Value {
    var row := scope.world.row;
    match col
    case DtUserKey => OptText(row.userKey)
    case DtProject => VInt(row.project)
    case DtTraits => if row.traits.Some? then VJson(row.traits.value) else Null
    case DtMetadata => if row.metadata.Some? then VJson(row.metadata.value) else Null
    case IhIssue => if scope.hit.Some? then VUuid(scope.hit.value.issue) else Abort
    case IhUserKey => if scope.hit.Some? then VText(scope.hit.value.userKey) else Abort
    case IProject =>
      if scope.hit.Some? && scope.hit.value.issue in scope.world.issueProject then
        VInt(scope.world.issueProject[scope.hit.value.issue])
      else Abort
  }

  /** The cast to `numeric` of a text that is no decimal number is not modelled: an error. */
  ghost function CastValue(v: Value, ty: SqlType): Value {
    match (v, ty)
    case (Null, _) => Null
    case (VText(_), AsText) => v
    case (VJson(_), AsJsonb) => v
    case (VUuid(_), AsUuid) => v
    case (VText(s), AsNumeric) =>
      if SqlCasts.Decimal(s) && SqlCasts.FitsNumeric(s) then VNumeric(SqlCasts.NumericValue(s)) else Abort
    case (VText(s), AsJsonb) => if s == "{}" then VJson(JObject(map[])) else Abort
    case _ => Abort
  }

  const DECIMAL_PATTERN := "^-?[0-9]+(\\.[0-9]+)?$"

  ghost function ApplyValue(op: OperatorSym, a: Value, b: Value, scope: Scope): Value {
    if a.Abort? || b.Abort? then Abort
    else if a.Null? || b.Null? then Null
    else
      match (op, a, b)
      case (Arrow, VJson(doc), VText(key)) =>
        (match Member(doc, key) case None => Null case Some(j) => VJson(j))
      case (ArrowText, VJson(doc), VText(key)) =>
        (match Member(doc, key)
         case None => Null
         case Some(JNull) => Null
         case Some(JString(s)) => VText(s)
         case Some(j) => VText(scope.world.server.jsonText(j)))
      case (ContainsSym, VJson(doc), VJson(pattern)) => VBool(Contains(doc, pattern))
      case (Matches, VText(s), VText(pattern)) =>
        if pattern == DECIMAL_PATTERN then VBool(SqlCasts.Decimal(s)) else Abort
      case _ => Abort
  }

  ghost function CompareValue(cmp: ComparisonSym, a: Value, b: Value): Value {
    if a.Abort? || b.Abort? then Abort
    else if a.Null? || b.Null? then Null
    else
      match (a, b)
      case (VNumeric(x), VNumeric(y)) =>
        VBool(match cmp case Eq => x == y case Ge => x >= y case Gt => x > y case Le => x <= y case Lt => x < y)
      case (VKey(x), VKey(y)) =>
        VBool(match cmp
              case Eq => x == y
              case Ge => !T.KeyLess(x, y)
              case Gt => T.KeyLess(y, x)
              case Le => !T.KeyLess(y, x)
              case Lt => T.KeyLess(x, y))
      case (VText(x), VText(y)) => if cmp.Eq? then VBool(x == y) else Abort
      case (VJson(x), VJson(y)) => if cmp.Eq? then VBool(x == y) else Abort
      case (VUuid(x), VUuid(y)) => if cmp.Eq? then VBool(x == y) else Abort
      case (VInt(x), VInt(y)) => if cmp.Eq? then VBool(x == y) else Abort
      case _ => Abort
  }

  ghost function CallValue(fn: Fun, args: seq<Value>, scope: Scope): Value {
    match fn
    case Coalesce =>
      if |args| != 2 || args[0].Abort? then Abort else if args[0].Null? then args[1] else args[0]
    case StartsWith =>
      if |args| != 2 then Abort
      else
        (match (args[0], args[1])
         case (VText(s), VText(p)) => VBool(p <= s)
         case (Null, VText(_)) => Null
         case (VText(_), Null) => Null
         case (Null, Null) => Null
         case _ => Abort)
    case VersionKey =>
      if |args| != 1 then Abort
      else
        (match args[0]
         case Null => Null
         case VText(s) =>
           (match SqlCasts.VersionReading(s)
            case Reads(key) => VKey(key)
            case Unreadable => Null
            case OutOfRange => Abort)
         case _ => Abort)
  }

  /** Arms are tried in order, and an arm that is not taken cannot abort. */
  ghost function CaseValue(cond: Value, yes: Value, no: Value): Value {
    match cond
    case VBool(b) => if b then yes else no
    case Null => no
    case _ => Abort
  }

  /** Three-valued connectives over SQL booleans. */
  ghost function Tristate(v: Value): Option<T.Tri> {
    match v
    case Null => Some(T.Unknown)
    case VBool(b) => Some(T.OfBool(b))
    case _ => None
  }

  ghost function OfTri(t: T.Tri): Value {
    match t case Yes => VBool(true) case No => VBool(false) case Unknown => Null
  }

  ghost function NotValue(a: Value): Value {
    var t := Tristate(a);
    if t.None? then Abort else OfTri(T.TriNot(t.value))
  }

  /** The side evaluated first is this value, and the other does not matter. */
  ghost predicate Decides(order: Order, a: Value, b: Value, value: Value) {
    match order case LeftFirst => a == value case RightFirst => b == value case Both => false
  }

  ghost function AndValue(order: Order, a: Value, b: Value): Value {
    var s, t := Tristate(a), Tristate(b);
    if Decides(order, a, b, VBool(false)) then VBool(false)
    else if s.None? || t.None? then Abort else OfTri(T.TriAnd(s.value, t.value))
  }

  ghost function OrValue(order: Order, a: Value, b: Value): Value {
    var s, t := Tristate(a), Tristate(b);
    if Decides(order, a, b, VBool(true)) then VBool(true)
    else if s.None? || t.None? then Abort else OfTri(T.TriOr(s.value, t.value))
  }

  ghost function ParamValue(params: seq<Bind>, n: nat): Value {
    if 1 <= n <= |params| then
      (match params[n - 1]
       case BindText(s) => VText(s)
       case BindJson(j) => VJson(j)
       case BindUuid(id) => VUuid(id))
    else Abort
  }

  ghost function Eval(e: Expr, scope: Scope): Value
    decreases e, 1
  {
    match e
    case Or(l, r) => OrValue(scope.order(e), Eval(l, scope), Eval(r, scope))
    case And(l, r) => AndValue(scope.order(e), Eval(l, scope), Eval(r, scope))
    case Not(x) => NotValue(Eval(x, scope))
    case NotNull(x) => if Eval(x, scope).Abort? then Abort else VBool(!Eval(x, scope).Null?)
    case Compare(cmp, l, r) => CompareValue(cmp, Eval(l, scope), Eval(r, scope))
    case Apply(op, l, r) => ApplyValue(op, Eval(l, scope), Eval(r, scope), scope)
    case Cast(x, ty) => CastValue(Eval(x, scope), ty)
    case Param(n) => ParamValue(scope.params, n)
    case Column(col) => ColumnValue(col, scope)
    case Text(s) => VText(s)
    case Bool(b) => VBool(b)
    case Call(fn, args) => CallValue(fn, EvalArgs(args, scope), scope)
    case Case(cond, yes, no) => CaseValue(Eval(cond, scope), Eval(yes, scope), Eval(no, scope))
    case HitExists(where) => EvalHits(where, scope)
  }

  ghost function EvalArgs(args: seq<Expr>, scope: Scope): seq<Value>
    decreases args
  {
    if args == [] then [] else [Eval(args[0], scope)] + EvalArgs(args[1..], scope)
  }

  /** Is the condition true for some hit joined to its issue? */
  ghost function EvalHits(where: Expr, scope: Scope): Value
    decreases where, 2
  {
    if exists h | h in scope.world.hits ::
      h.issue in scope.world.issueProject && Tristate(Eval(where, scope.(hit := Some(h)))).None?
    then Abort
    else VBool(exists h | h in scope.world.hits ::
      h.issue in scope.world.issueProject && Eval(where, scope.(hit := Some(h))) == VBool(true))
  }
}
