/** The audience expression: who a push is for. */
module AudienceTree {
  import opened Prelude
  import opened Json
  import opened SqlCasts

  datatype Source = Trait | Device
  datatype Cmp = Gte | Gt | Lte | Lt

  datatype Node =
    | All(items: seq<Node>)
    | Any(items: seq<Node>)
    | Not(inner: Node)
    | UserKey(userKey: string)
    | Issue(issue: int)
    | Exists(source: Source, key: string)
    | Is(source: Source, key: string, value: Json)
    | Prefix(source: Source, key: string, text: string)
    | Number(source: Source, key: string, cmp: Cmp, bound: real)
    | Version(source: Source, key: string, cmp: Cmp, version: string)
    | Never

  /** No disjunction without branches anywhere: the one tree shape that has no
      SQL rendering. */
  ghost predicate NoEmptyAny(node: Node) {
    match node
    case All(items) => NoneEmpty(items)
    case Any(items) => items != [] && NoneEmpty(items)
    case Not(inner) => NoEmptyAny(inner)
    case _ => true
  }

  ghost predicate NoneEmpty(items: seq<Node>) {
    items == [] || (NoEmptyAny(items[0]) && NoneEmpty(items[1..]))
  }

  /** Leaf conditions in a tree. */
  ghost function Leaves(node: Node): nat {
    match node
    case All(items) => LeavesOf(items)
    case Any(items) => LeavesOf(items)
    case Not(inner) => Leaves(inner)
    case Never => 0
    case _ => 1
  }

  ghost function LeavesOf(items: seq<Node>): nat {
    if items == [] then 0 else Leaves(items[0]) + LeavesOf(items[1..])
  }

  /** Nodes on the longest path from the root to a leaf. */
  ghost function Height(node: Node): nat {
    match node
    case All(items) => 1 + HeightOf(items)
    case Any(items) => 1 + HeightOf(items)
    case Not(inner) => 1 + Height(inner)
    case _ => 1
  }

  ghost function HeightOf(items: seq<Node>): nat {
    if items == [] then 0
    else if Height(items[0]) >= HeightOf(items[1..]) then Height(items[0])
    else HeightOf(items[1..])
  }

  // ---------------------------------------------------------------- meaning

  /** Three-valued truth. */
  datatype Tri = Yes | No | Unknown

  function TriNot(a: Tri): Tri {
    match a case Yes => No case No => Yes case Unknown => Unknown
  }

  function TriAnd(a: Tri, b: Tri): Tri {
    if a.No? || b.No? then No else if a.Yes? && b.Yes? then Yes else Unknown
  }

  function TriOr(a: Tri, b: Tri): Tri {
    TriNot(TriAnd(TriNot(a), TriNot(b)))
  }

  function OfBool(b: bool): Tri {
    if b then Yes else No
  }

  /** One device row, with `None` for SQL NULL. */
  datatype DeviceRow = DeviceRow(
    project: int,
    userKey: Option<string>,
    traits: Option<Json>,
    metadata: Option<Json>)

  /** A row of `issue_user_hits`. */
  datatype Hit = Hit(issue: int, userKey: string)

  /** The text of a JSON value at the server, and the text the client gives a float. */
  datatype Server = Server(jsonText: Json -> string, floatText: real -> string)

  datatype World = World(
    server: Server,
    row: DeviceRow,
    hits: set<Hit>,
    issueProject: map<int, int>)

  /** Floats print as decimal texts. */
  ghost predicate PrintsDecimals(server: Server) {
    forall r :: Decimal(server.floatText(r))
  }

  function Doc(row: DeviceRow, source: Source): Json {
    (if source.Trait? then row.traits else row.metadata).GetOr(JObject(map[]))
  }

  /** The text of a member: none when absent or JSON null. */
  function TextOf(world: World, source: Source, key: string): Option<string> {
    match Member(Doc(world.row, source), key)
    case None => None
    case Some(JNull) => None
    case Some(JString(s)) => Some(s)
    case Some(j) => Some(world.server.jsonText(j))
  }

  predicate CompareReal(cmp: Cmp, a: real, b: real) {
    match cmp case Gte => a >= b case Gt => a > b case Lte => a <= b case Lt => a < b
  }

  /** Element-wise order of `bigint[]`, a proper prefix being smaller. */
  predicate KeyLess(a: seq<int>, b: seq<int>) {
    if b == [] then false
    else if a == [] then true
    else a[0] < b[0] || (a[0] == b[0] && KeyLess(a[1..], b[1..]))
  }

  predicate CompareKey(cmp: Cmp, a: seq<int>, b: seq<int>) {
    match cmp
    case Gte => !KeyLess(a, b)
    case Gt => KeyLess(b, a)
    case Lte => !KeyLess(b, a)
    case Lt => KeyLess(a, b)
  }

  /** Did this person hit this issue, within the device's own project? */
  ghost predicate WasHit(world: World, issue: int) {
    && world.row.userKey.Some?
    && Hit(issue, world.row.userKey.value) in world.hits
    && issue in world.issueProject
    && world.issueProject[issue] == world.row.project
  }

  /** What an expression means for one device, in Kleene's three-valued logic.
      Only two leaves can be unknown: the identity of a device nobody signed in
      on, and an object or array comparison against an absent member. */
  ghost function Meaning(node: Node, world: World): Tri {
    match node
    case All(items) => MeaningAll(items, world)
    case Any(items) => MeaningAny(items, world)
    case Not(inner) => TriNot(Meaning(inner, world))
    case UserKey(key) =>
      if world.row.userKey.None? then Unknown else OfBool(world.row.userKey.value == key)
    case Issue(id) => OfBool(WasHit(world, id))
    case Exists(source, key) => OfBool(Member(Doc(world.row, source), key).Some?)
    case Is(source, key, value) =>
      (match Member(Doc(world.row, source), key)
       case None => if value.Composite() then Unknown else No
       case Some(j) => OfBool(j == value))
    case Prefix(source, key, text) =>
      (match TextOf(world, source, key)
       case None => No
       case Some(t) => OfBool(text <= t))
    case Number(source, key, cmp, bound) =>
      var t := TextOf(world, source, key);
      if t.None? || !Decimal(t.value) then No
      else
        OfBool(CompareReal(cmp, NumericValue(t.value), NumericValue(world.server.floatText(bound))))
    case Version(source, key, cmp, version) =>
      var t := TextOf(world, source, key);
      if t.None? || !VersionReading(t.value).Reads? || !VersionReading(version).Reads? then No
      else OfBool(CompareKey(cmp, VersionReading(t.value).value, VersionReading(version).value))
    case Never => No
  }

  ghost function MeaningAll(items: seq<Node>, world: World): Tri {
    if items == [] then Yes else TriAnd(Meaning(items[0], world), MeaningAll(items[1..], world))
  }

  ghost function MeaningAny(items: seq<Node>, world: World): Tri {
    if items == [] then No else TriOr(Meaning(items[0], world), MeaningAny(items[1..], world))
  }

  // ------------------------------------------------------------------ faults

  /** Evaluating this leaf on this device is an error: a version, the device's or the one
      compared with, has a segment over 2^63-1; or a decimal text of the device is compared
      as a number and it, or the bound, is beyond `numeric`. */
  ghost predicate LeafFaults(leaf: Node, world: World) {
    match leaf
    case Number(source, key, _, bound) =>
      var t := TextOf(world, source, key);
      t.Some? && Decimal(t.value) && !(FitsNumeric(t.value) && FitsNumeric(world.server.floatText(bound)))
    case Version(source, key, _, version) =>
      var t := TextOf(world, source, key);
      (t.Some? && VersionReading(t.value).OutOfRange?) || VersionReading(version).OutOfRange?
    case _ => false
  }

  /** The leaves evaluated from left to right: a conjunction stops at a branch that is
      false, a disjunction at one that is true. */
  ghost function Visited(node: Node, world: World): seq<Node> {
    match node
    case All(items) => VisitedWhile(items, No, world)
    case Any(items) => VisitedWhile(items, Yes, world)
    case Not(inner) => Visited(inner, world)
    case Never => []
    case _ => [node]
  }

  ghost function VisitedWhile(items: seq<Node>, stop: Tri, world: World): seq<Node> {
    if items == [] then []
    else
      Visited(items[0], world)
      + if Meaning(items[0], world) == stop then [] else VisitedWhile(items[1..], stop, world)
  }

  /** All leaves, whatever their branches say. */
  ghost function Conditions(node: Node): seq<Node> {
    match node
    case All(items) => ConditionsOf(items)
    case Any(items) => ConditionsOf(items)
    case Not(inner) => Conditions(inner)
    case Never => []
    case _ => [node]
  }

  ghost function ConditionsOf(items: seq<Node>): seq<Node> {
    if items == [] then [] else Conditions(items[0]) + ConditionsOf(items[1..])
  }

  ghost predicate AnyFaults(leaves: seq<Node>, world: World) {
    exists leaf | leaf in leaves :: LeafFaults(leaf, world)
  }

  /** One of the leaves evaluated for this device is an error. */
  ghost predicate Faults(node: Node, world: World) {
    AnyFaults(Visited(node, world), world)
  }

  /** A `WHERE` clause keeps a row only when the condition is true, and there is none to
      keep when evaluating it is an error. */
  ghost predicate Selected(node: Node, world: World) {
    !Faults(node, world) && Meaning(node, world).Yes?
  }
}
