/** What a JSON condition asks of a device, said of the JSON itself, and which conditions are
    accepted. The parser's trees mean what was asked, and with the compiler's theorem so does
    the statement the server runs. */
module AudienceAsks {
  import opened Prelude
  import opened Json
  import opened SqlCasts
  import opened AudienceTree
  import opened AudienceReader
  import opened AudienceCompiler
  import L = AudienceLimits
  import M = AudienceMeaning
  import S = Sql

  // ------------------------------------------------------------------- what is asked

  ghost function Signed(world: World, key: string): Tri {
    if world.row.userKey.None? then Unknown else OfBool(world.row.userKey.value == key)
  }

  /** The member of the person's traits or of the device's metadata that a condition names. */
  ghost function Held(obj: Members, world: World): Option<Json> {
    var named := if "trait" in obj then obj["trait"] else if "device" in obj then obj["device"] else JNull;
    var doc := (if "trait" in obj then world.row.traits else world.row.metadata).GetOr(JObject(map[]));
    if named.JString? then Member(doc, named.s) else None
  }

  /** Its text, as `->>` gives it. */
  ghost function Said(held: Option<Json>, world: World): Option<string> {
    if held.None? || held.value.JNull? then None
    else Some(if held.value.JString? then held.value.s else world.server.jsonText(held.value))
  }

  ghost function Equals(held: Option<Json>, value: Json): Tri {
    if held.Some? then OfBool(held.value == value)
    else if value.JObject? || value.JArray? then Unknown else No
  }

  /** Equal to one of the values: not to none of them. */
  ghost function OneOf(held: Option<Json>, values: seq<Json>): Tri {
    if exists i | 0 <= i < |values| :: Equals(held, values[i]) == Yes then Yes
    else if forall i | 0 <= i < |values| :: Equals(held, values[i]) == No then No
    else Unknown
  }

  ghost function Versions(said: Option<string>, bound: Json, holds: (seq<int>, seq<int>) -> bool): Tri {
    if said.None? || !bound.JString? then No
    else
      match (VersionReading(said.value), VersionReading(bound.s))
      case (Reads(a), Reads(b)) => OfBool(holds(a, b))
      case _ => No
  }

  ghost function Numbers(said: Option<string>, bound: Json, world: World, holds: (real, real) -> bool): Tri {
    if said.None? || !bound.JNumber? || !Decimal(said.value) then No
    else OfBool(holds(NumericValue(said.value), NumericValue(world.server.floatText(bound.n))))
  }

  ghost function InOrder(obj: Members, said: Option<string>, world: World): Tri {
    if "versionGte" in obj then Versions(said, obj["versionGte"], (a, b) => !KeyLess(a, b))
    else if "versionGt" in obj then Versions(said, obj["versionGt"], (a, b) => KeyLess(b, a))
    else if "versionLte" in obj then Versions(said, obj["versionLte"], (a, b) => !KeyLess(b, a))
    else if "versionLt" in obj then Versions(said, obj["versionLt"], (a, b) => KeyLess(a, b))
    else if "gte" in obj then Numbers(said, obj["gte"], world, (a, b) => a >= b)
    else if "gt" in obj then Numbers(said, obj["gt"], world, (a, b) => a > b)
    else if "lte" in obj then Numbers(said, obj["lte"], world, (a, b) => a <= b)
    else if "lt" in obj then Numbers(said, obj["lt"], world, (a, b) => a < b)
    else Unknown
  }

  /** What a condition on one attribute asks. */
  ghost function AsksOf(obj: Members, held: Option<Json>, world: World): Tri {
    var said := Said(held, world);
    if "in" in obj then (if obj["in"].JArray? then OneOf(held, obj["in"].items) else Unknown)
    else if "is" in obj then Equals(held, obj["is"])
    else if "isNot" in obj then TriNot(Equals(held, obj["isNot"]))
    else if "exists" in obj then OfBool(held.Some? == (obj["exists"] == JBool(true)))
    else if "prefix" in obj then
      OfBool(obj["prefix"].JString? && said.Some? && obj["prefix"].s <= said.value)
    else InOrder(obj, said, world)
  }

  /** What a condition asks of a device, in three-valued logic: by its first member of `all`,
      `any`, `not`, `user`, `issue`, `userKey`, or of an attribute. */
  ghost function Asks(v: Json, world: World, outside: Outside): Tri
    decreases v
  {
    if !v.JObject? then Unknown
    else
      var obj := v.fields;
      if "all" in obj then
        if !obj["all"].JArray? then Unknown
        else
          var parts := obj["all"].items;
          if exists i | 0 <= i < |parts| :: Asks(parts[i], world, outside) == No then No
          else if forall i | 0 <= i < |parts| :: Asks(parts[i], world, outside) == Yes then Yes
          else Unknown
      else if "any" in obj then
        if !obj["any"].JArray? then Unknown
        else
          var parts := obj["any"].items;
          if exists i | 0 <= i < |parts| :: Asks(parts[i], world, outside) == Yes then Yes
          else if forall i | 0 <= i < |parts| :: Asks(parts[i], world, outside) == No then No
          else Unknown
      else if "not" in obj then TriNot(Asks(obj["not"], world, outside))
      else if "user" in obj then
        var key := if obj["user"].JString? then outside.hashUser(obj["user"].s) else None;
        if key.Some? then Signed(world, key.value) else Unknown
      else if "issue" in obj then
        var id := if obj["issue"].JString? then outside.parseUuid(obj["issue"].s) else None;
        if id.Some? then OfBool(WasHit(world, id.value)) else Unknown
      else if "userKey" in obj then
        if obj["userKey"].JString? then Signed(world, obj["userKey"].s) else Unknown
      else AsksOf(obj, Held(obj, world), world)
  }

  // --------------------------------------------------------------- trees mean what is asked

  lemma {:induction false} AllIs(nodes: seq<Node>, world: World)
    ensures MeaningAll(nodes, world) ==
            if exists i | 0 <= i < |nodes| :: Meaning(nodes[i], world) == No then No
            else if forall i | 0 <= i < |nodes| :: Meaning(nodes[i], world) == Yes then Yes
            else Unknown
  {
    if nodes != [] {
      AllIs(nodes[1..], world);
      var rest := nodes[1..];
      assert forall i | 0 <= i < |rest| :: rest[i] == nodes[i + 1];
      assert forall i | 0 < i < |nodes| :: nodes[i] == rest[i - 1];
      hide Meaning;
    }
  }

  lemma {:induction false} AnyIs(nodes: seq<Node>, world: World)
    ensures MeaningAny(nodes, world) ==
            if exists i | 0 <= i < |nodes| :: Meaning(nodes[i], world) == Yes then Yes
            else if forall i | 0 <= i < |nodes| :: Meaning(nodes[i], world) == No then No
            else Unknown
  {
    if nodes != [] {
      AnyIs(nodes[1..], world);
      var rest := nodes[1..];
      assert forall i | 0 <= i < |rest| :: rest[i] == nodes[i + 1];
      assert forall i | 0 < i < |nodes| :: nodes[i] == rest[i - 1];
      hide Meaning;
    }
  }

  lemma {:induction false} EqualsIs(source: Source, key: string, value: Json, held: Option<Json>, world: World)
    requires held == Member(Doc(world.row, source), key)
    ensures Meaning(Is(source, key, value), world) == Equals(held, value)
  {
  }

  lemma {:induction false} EqualitiesAsk(source: Source, key: string, values: seq<Json>, held: Option<Json>,
                                         world: World)
    requires held == Member(Doc(world.row, source), key)
    ensures MeaningAny(Equalities(source, key, values), world) == OneOf(held, values)
  {
    var nodes := Equalities(source, key, values);
    AnyIs(nodes, world);
    forall i | 0 <= i < |values| ensures Meaning(nodes[i], world) == Equals(held, values[i]) {
      EqualsIs(source, key, values[i], held, world);
    }
    hide Meaning, Equals;
  }

  lemma {:induction false} SubjectHeld(obj: Members, world: World)
    requires ParseSubject(obj).Ok?
    ensures var (source, key) := ParseSubject(obj).value;
      Held(obj, world) == Member(Doc(world.row, source), key)
      && Said(Held(obj, world), world) == TextOf(world, source, key)
  {
  }

  lemma {:induction false} FirstVersion(obj: Members)
    ensures FirstOf(obj, VERSION_OPS) ==
            if "versionGte" in obj then Some(("versionGte", Gte)) else if "versionGt" in obj
                then Some(("versionGt", Gt))
            else if "versionLte" in obj then Some(("versionLte", Lte))
            else if "versionLt" in obj then Some(("versionLt", Lt)) else None
  {
    FirstOfFour(obj, VERSION_OPS);
  }

  lemma {:induction false} FirstNumber(obj: Members)
    ensures FirstOf(obj, NUMBER_OPS) ==
            if "gte" in obj then Some(("gte", Gte)) else if "gt" in obj then Some(("gt", Gt))
            else if "lte" in obj then Some(("lte", Lte)) else if "lt" in obj then Some(("lt", Lt)) else None
  {
    FirstOfFour(obj, NUMBER_OPS);
  }

  lemma {:induction false} FirstOfFour(obj: Members, names: seq<(string, Cmp)>)
    requires |names| == 4
    ensures FirstOf(obj, names) ==
            if names[0].0 in obj then Some(names[0]) else if names[1].0 in obj then Some(names[1])
            else if names[2].0 in obj then Some(names[2]) else if names[3].0 in obj then Some(names[3]) else None
  {
    var n1, n2, n3 := names[1..], names[2..], names[3..];
    assert n1[1..] == n2 && n2[1..] == n3 && n3[1..] == [];
    assert FirstOf(obj, n3[1..]) == None;
    assert FirstOf(obj, n3) == if n3[0].0 in obj then Some(n3[0]) else None;
    assert FirstOf(obj, n2) == if n2[0].0 in obj then Some(n2[0]) else FirstOf(obj, n3);
    assert FirstOf(obj, n1) == if n1[0].0 in obj then Some(n1[0]) else FirstOf(obj, n2);
  }

  lemma {:induction false} VersionAsks(source: Source, key: string, cmp: Cmp, version: string, world: World)
    ensures Meaning(Version(source, key, cmp, version), world) ==
            Versions(TextOf(world, source, key), JString(version), (a, b) => CompareKey(cmp, a, b))
  {
    hide KeyLess, VersionReading;
  }

  lemma {:induction false} NumberAsks(source: Source, key: string, cmp: Cmp, bound: real, world: World)
    ensures Meaning(Number(source, key, cmp, bound), world) ==
            Numbers(TextOf(world, source, key), JNumber(bound), world, (a, b) => CompareReal(cmp, a, b))
  {
    hide Decimal, NumericValue;
  }

  lemma {:induction false} VersionsBy(said: Option<string>, bound: Json, cmp: Cmp)
    ensures Versions(said, bound, (a, b) => CompareKey(cmp, a, b)) ==
            match cmp
            case Gte => Versions(said, bound, (a, b) => !KeyLess(a, b))
            case Gt => Versions(said, bound, (a, b) => KeyLess(b, a))
            case Lte => Versions(said, bound, (a, b) => !KeyLess(b, a))
            case Lt => Versions(said, bound, (a, b) => KeyLess(a, b))
  {
    hide KeyLess, VersionReading;
  }

  lemma {:induction false} NumbersBy(said: Option<string>, bound: Json, cmp: Cmp, world: World)
    ensures Numbers(said, bound, world, (a, b) => CompareReal(cmp, a, b)) ==
            match cmp
            case Gte => Numbers(said, bound, world, (a, b) => a >= b)
            case Gt => Numbers(said, bound, world, (a, b) => a > b)
            case Lte => Numbers(said, bound, world, (a, b) => a <= b)
            case Lt => Numbers(said, bound, world, (a, b) => a < b)
  {
    hide Decimal, NumericValue;
  }

  lemma {:induction false} ComparisonAsks(obj: Members, source: Source, key: string, world: World)
    requires ParseSubject(obj) == Ok((source, key)) && "in" !in obj && ParseComparison(obj, source, key).Ok?
    ensures Meaning(ParseComparison(obj, source, key).value, world) == AsksOf(obj, Held(obj, world), world)
  {
    SubjectHeld(obj, world);
    hide InOrder, Held, ParseSubject, FirstOf;
    if "is" in obj {
      EqualsIs(source, key, obj["is"], Held(obj, world), world);
    } else if "isNot" in obj {
      EqualsIs(source, key, obj["isNot"], Held(obj, world), world);
    } else if "exists" in obj || "prefix" in obj {
    } else {
      OrderAsks(obj, source, key, world);
    }
  }

  lemma {:induction false} OrderAsks(obj: Members, source: Source, key: string, world: World)
    requires ParseComparison(obj, source, key).Ok?
    requires "is" !in obj && "isNot" !in obj && "exists" !in obj && "prefix" !in obj
    ensures Meaning(ParseComparison(obj, source, key).value, world) == InOrder(obj, TextOf(world, source, key), world)
  {
    hide Meaning, FirstOf, TextOf, VERSION_OPS, NUMBER_OPS, Numbers, Versions;
    FirstVersion(obj);
    FirstNumber(obj);
    var node := ParseComparison(obj, source, key).value;
    var said := TextOf(world, source, key);
    if node.Version? {
      VersionAsks(source, key, node.cmp, node.version, world);
      VersionsBy(said, JString(node.version), node.cmp);
    } else {
      NumberAsks(source, key, node.cmp, node.bound, world);
      NumbersBy(said, JNumber(node.bound), node.cmp, world);
    }
  }

  lemma {:induction false} LeafAsks(obj: Members, depth: nat, budget: nat, world: World)
    requires ParseLeaf(obj, depth, budget).Read?
    ensures Meaning(ParseLeaf(obj, depth, budget).node, world) == AsksOf(obj, Held(obj, world), world)
  {
    var (source, key) := ParseSubject(obj).value;
    SubjectHeld(obj, world);
    hide ParseComparison, ParseSubject, Held;
    if "in" in obj {
      EqualitiesAsk(source, key, obj["in"].items, Held(obj, world), world);
    } else {
      ComparisonAsks(obj, source, key, world);
      hide AsksOf;
    }
  }

  /** A tree the parser accepts means what the JSON asks, on every device. */
  lemma {:induction false} ReadMeans(v: Json, depth: nat, budget: nat, world: World, outside: Outside)
    requires ParseNode(v, depth, budget, outside).Read?
    ensures Meaning(ParseNode(v, depth, budget, outside).node, world) == Asks(v, world, outside)
    decreases Rest(depth), 0
  {
    hide AsksOf, ParseLeaf, Held, WasHit;
    var obj := v.fields;
    if "all" in obj || "any" in obj {
      GroupMeans(v, depth, budget, world, outside);
    } else if "not" in obj {
      ReadMeans(obj["not"], depth + 1, budget - 1, world, outside);
    } else if "user" in obj || "issue" in obj || "userKey" in obj {
    } else {
      LeafAsks(obj, depth, budget - 1, world);
    }
  }

  lemma {:induction false} GroupMeans(v: Json, depth: nat, budget: nat, world: World, outside: Outside)
    requires ParseNode(v, depth, budget, outside).Read? && ("all" in v.fields || "any" in v.fields)
    ensures Meaning(ParseNode(v, depth, budget, outside).node, world) == Asks(v, world, outside)
    decreases Rest(depth), 0, 0
  {
    hide AsksOf, ParseLeaf, Held, WasHit;
    var items := (if "all" in v.fields then v.fields["all"] else v.fields["any"]).items;
    BranchesMean(items, depth + 1, budget - 1, world, outside);
    var nodes := ParseBranches(items, depth + 1, budget - 1, outside).nodes;
    hide ParseBranches, Meaning, Asks;
    GroupAsks(v, items, world, outside);
    GroupIs(nodes, items, world, outside);
  }

  /** Some branch has this value. */
  ghost predicate SomeAsk(items: seq<Json>, t: Tri, world: World, outside: Outside) {
    exists i | 0 <= i < |items| :: Asks(items[i], world, outside) == t
  }

  ghost predicate EachAsk(items: seq<Json>, t: Tri, world: World, outside: Outside) {
    forall i | 0 <= i < |items| :: Asks(items[i], world, outside) == t
  }

  lemma {:induction false} GroupAsks(v: Json, items: seq<Json>, world: World, outside: Outside)
    requires v.JObject?
    ensures "all" in v.fields && v.fields["all"] == JArray(items) ==>
      Asks(v, world, outside) ==
      if SomeAsk(items, No, world, outside) then No else if EachAsk(items, Yes, world, outside) then Yes else Unknown
    ensures "all" !in v.fields && "any" in v.fields && v.fields["any"] == JArray(items) ==>
      Asks(v, world, outside) ==
      if SomeAsk(items, Yes, world, outside) then Yes else if EachAsk(items, No, world, outside) then No else Unknown
  {
    hide AsksOf, Held, WasHit, Signed;
  }

  lemma {:induction false} GroupIs(nodes: seq<Node>, items: seq<Json>, world: World, outside: Outside)
    requires |nodes| == |items|
    requires forall i | 0 <= i < |items| :: Meaning(nodes[i], world) == Asks(items[i], world, outside)
    ensures Meaning(All(nodes), world) ==
            if SomeAsk(items, No, world, outside) then No else if EachAsk(items, Yes, world, outside) then Yes
                else Unknown
    ensures Meaning(if nodes == [] then Never else Any(nodes), world) ==
            if SomeAsk(items, Yes, world, outside) then Yes else if EachAsk(items, No, world, outside) then No
                else Unknown
  {
    AllIs(nodes, world);
    AnyIs(nodes, world);
    GroupMeaning(nodes, world);
    hide Meaning, Asks;
  }

  lemma {:induction false} GroupMeaning(nodes: seq<Node>, world: World)
    ensures Meaning(All(nodes), world) == MeaningAll(nodes, world)
    ensures Meaning(if nodes == [] then Never else Any(nodes), world) == MeaningAny(nodes, world)
  {
  }

  lemma {:induction false} BranchesMean(items: seq<Json>, depth: nat, budget: nat, world: World, outside: Outside)
    requires ParseBranches(items, depth, budget, outside).ReadAll?
    ensures var nodes := ParseBranches(items, depth, budget, outside).nodes;
      |nodes| == |items| && forall i | 0 <= i < |items| :: Meaning(nodes[i], world) == Asks(items[i], world, outside)
    decreases Rest(depth), |items| + 1
  {
    hide Meaning, Asks;
    if items != [] {
      ReadMeans(items[0], depth, budget, world, outside);
      var head := ParseNode(items[0], depth, budget, outside);
      BranchesMean(items[1..], depth, head.left, world, outside);
    }
  }

  /** From the JSON to the server's answer: what an accepted request compiles to, evaluated
      from left to right, is what was asked, or an error where an evaluated leaf is one. */
  lemma {:induction false} RequestMeans(v: Json, n: nat, scope: S.Scope, outside: Outside)
    requires ParseNode(v, 0, MAX_NODES, outside).Read? && PrintsDecimals(scope.world.server) && M.LeftToRight(scope)
    requires M.Placed(scope.params, n, Binds(ParseNode(v, 0, MAX_NODES, outside).node, scope.world.server.floatText))
    ensures
      var node := ParseNode(v, 0, MAX_NODES, outside).node;
      var read := S.Parse(Fragment(node, n), 0);
      && read.Done? && read.rest == []
      && S.Eval(read.e, scope) == if Faults(node, scope.world) then S.Abort else S.OfTri(Asks(v, scope.world, outside))
  {
    hide *;
    ReadMeans(v, 0, MAX_NODES, scope.world, outside);
    L.ReadWithin(v, 0, MAX_NODES, outside);
    M.FragmentMeans(ParseNode(v, 0, MAX_NODES, outside).node, n, scope);
  }

  // ------------------------------------------------------------------ what is accepted

  ghost predicate IsName(v: Json) {
    v.JString? && v.s != ""
  }

  /** An attribute's name, on one side, and a comparison with what it needs. */
  ghost predicate AttributeWritten(obj: Members) {
    && ("trait" in obj <==> "device" !in obj)
    && IsName(if "trait" in obj then obj["trait"] else obj["device"])
    && if "in" in obj then obj["in"].JArray?
       else if "is" in obj || "isNot" in obj then true
       else if "exists" in obj then obj["exists"].JBool?
       else if "prefix" in obj then obj["prefix"].JString?
       else if "versionGte" in obj then IsName(obj["versionGte"])
       else if "versionGt" in obj then IsName(obj["versionGt"])
       else if "versionLte" in obj then IsName(obj["versionLte"])
       else if "versionLt" in obj then IsName(obj["versionLt"])
       else if "gte" in obj then obj["gte"].JNumber?
       else if "gt" in obj then obj["gt"].JNumber?
       else if "lte" in obj then obj["lte"].JNumber?
       else "lt" in obj && obj["lt"].JNumber?
  }

  /** The conditions the grammar has, whatever their size. */
  ghost predicate Written(v: Json, outside: Outside)
    decreases v
  {
    && v.JObject?
    && var obj := v.fields;
       if "all" in obj then obj["all"].JArray? && AllWritten(obj["all"].items, outside)
       else if "any" in obj then obj["any"].JArray? && AllWritten(obj["any"].items, outside)
       else if "not" in obj then Written(obj["not"], outside)
       else if "user" in obj then obj["user"].JString? && outside.hashUser(obj["user"].s).Some?
       else if "issue" in obj then obj["issue"].JString? && outside.parseUuid(obj["issue"].s).Some?
       else if "userKey" in obj then IsName(obj["userKey"])
       else AttributeWritten(obj)
  }

  ghost predicate AllWritten(items: seq<Json>, outside: Outside)
    decreases items
  {
    items == [] || (Written(items[0], outside) && AllWritten(items[1..], outside))
  }

  /** One for each condition, group and negation, and one for each value listed. */
  ghost function Price(v: Json): nat
    decreases v
  {
    if !v.JObject? then 1
    else
      var obj := v.fields;
      if "all" in obj then 1 + if obj["all"].JArray? then Prices(obj["all"].items) else 0
      else if "any" in obj then 1 + if obj["any"].JArray? then Prices(obj["any"].items) else 0
      else if "not" in obj then 1 + Price(obj["not"])
      else if "user" in obj || "issue" in obj || "userKey" in obj then 1
      else 1 + if "in" in obj && obj["in"].JArray? then |obj["in"].items| else 0
  }

  ghost function Prices(items: seq<Json>): nat
    decreases items
  {
    if items == [] then 0 else Price(items[0]) + Prices(items[1..])
  }

  /** How many levels there are below. */
  ghost function Nest(v: Json): nat
    decreases v
  {
    if !v.JObject? then 0
    else
      var obj := v.fields;
      if "all" in obj then if obj["all"].JArray? then Nests(obj["all"].items) else 0
      else if "any" in obj then if obj["any"].JArray? then Nests(obj["any"].items) else 0
      else if "not" in obj then 1 + Nest(obj["not"])
      else if "user" in obj || "issue" in obj || "userKey" in obj then 0
      else if "in" in obj && obj["in"].JArray? && obj["in"].items != [] then 1 else 0
  }

  ghost function Nests(items: seq<Json>): nat
    decreases items
  {
    if items == [] then 0
    else if 1 + Nest(items[0]) >= Nests(items[1..]) then 1 + Nest(items[0]) else Nests(items[1..])
  }

  lemma {:induction false} ComparisonIff(obj: Members, source: Source, key: string)
    requires ParseSubject(obj) == Ok((source, key)) && "in" !in obj
    ensures ParseComparison(obj, source, key).Ok? <==> AttributeWritten(obj)
  {
    hide FirstOf, VERSION_OPS, NUMBER_OPS;
    FirstVersion(obj);
    FirstNumber(obj);
  }

  lemma {:induction false} LeafIff(obj: Members, depth: nat, budget: nat)
    requires depth <= MAX_DEPTH
    ensures var r := ParseLeaf(obj, depth, budget);
      var listed := if "in" in obj && obj["in"].JArray? then |obj["in"].items| else 0;
      && (r.Read? <==> AttributeWritten(obj) && listed <= budget && (listed > 0 ==> depth + 1 <= MAX_DEPTH))
      && (r.Read? ==> r.left == budget - listed)
  {
    hide ParseComparison;
    if ParseSubject(obj).Ok? && "in" !in obj {
      var (source, key) := ParseSubject(obj).value;
      hide AttributeWritten;
      ComparisonIff(obj, source, key);
    }
  }

  /** A condition is accepted exactly when it is written as the grammar has it, is worth no
      more than the budget, and nests no deeper than allowed; and it spends what it is worth. */
  lemma {:induction false} AcceptedIff(v: Json, depth: nat, budget: nat, outside: Outside)
    ensures var r := ParseNode(v, depth, budget, outside);
      && (r.Read? <==> Written(v, outside) && Price(v) <= budget && depth + Nest(v) <= MAX_DEPTH)
      && (r.Read? ==> r.left == budget - Price(v))
    decreases Rest(depth), 0
  {
    hide ParseLeaf, AttributeWritten;
    if v.JObject? && depth <= MAX_DEPTH && budget > 0 {
      var obj := v.fields;
      if "all" in obj {
        if obj["all"].JArray? { AllAcceptedIff(obj["all"].items, depth + 1, budget - 1, outside); }
      } else if "any" in obj {
        if obj["any"].JArray? { AllAcceptedIff(obj["any"].items, depth + 1, budget - 1, outside); }
      } else if "not" in obj {
        AcceptedIff(obj["not"], depth + 1, budget - 1, outside);
      } else if "user" !in obj && "issue" !in obj && "userKey" !in obj {
        LeafIff(obj, depth, budget - 1);
      }
    } else {
      WorthOne(v);
    }
  }

  lemma {:induction false} WorthOne(v: Json)
    ensures Price(v) >= 1
  {
  }

  lemma {:induction false} AllAcceptedIff(items: seq<Json>, depth: nat, budget: nat, outside: Outside)
    requires depth <= MAX_DEPTH + 1
    ensures var r := ParseBranches(items, depth, budget, outside);
      && (r.ReadAll? <==>
            (AllWritten(items, outside) && Prices(items) <= budget && depth + Nests(items) <= MAX_DEPTH + 1))
      && (r.ReadAll? ==> r.left == budget - Prices(items))
    decreases Rest(depth), |items| + 1
  {
    hide ParseNode, Written, Price, Nest;
    if items != [] {
      AcceptedIff(items[0], depth, budget, outside);
      var head := ParseNode(items[0], depth, budget, outside);
      if head.Read? { AllAcceptedIff(items[1..], depth, head.left, outside); }
    }
  }
}
