/** What the parser lets through: bounds on every accepted expression, and the
    conditions under which an expression written as JSON is accepted again. */
module AudienceLimits {
  import opened Prelude
  import opened Json
  import opened AudienceTree
  import opened AudienceReader
  import C = AudienceCompiler

  /** A group costs one condition besides its branches. */
  ghost function Overhead(node: Node): nat {
    if node.All? || node.Any? then 1 else 0
  }

  lemma {:induction false} ReadWithin(v: Json, depth: nat, budget: nat, outside: Outside)
    ensures match ParseNode(v, depth, budget, outside)
      case Denied(_) => true
      case Read(node, left) =>
        && NoEmptyAny(node)
        && left + Leaves(node) + Overhead(node) <= budget
        && left < budget
        && depth + Height(node) <= MAX_DEPTH + 2
    decreases Rest(depth), 0
  {
    if v.JObject? && depth <= MAX_DEPTH && budget > 0 {
      var obj := v.fields;
      if "all" in obj && obj["all"].JArray? {
        BranchesWithin(obj["all"].items, depth + 1, budget - 1, outside);
      } else if "any" in obj && obj["any"].JArray? {
        BranchesWithin(obj["any"].items, depth + 1, budget - 1, outside);
      } else if "not" in obj {
        ReadWithin(obj["not"], depth + 1, budget - 1, outside);
      } else if ParseSubject(obj).Ok? && "in" in obj && obj["in"].JArray? {
        EqualitiesCount(ParseSubject(obj).value.0, ParseSubject(obj).value.1, obj["in"].items);
      }
    }
  }

  lemma {:induction false} BranchesWithin(items: seq<Json>, depth: nat, budget: nat, outside: Outside)
    ensures match ParseBranches(items, depth, budget, outside)
      case DeniedAll(_) => true
      case ReadAll(nodes, left) =>
        && NoneEmpty(nodes)
        && left + LeavesOf(nodes) <= budget
        && (nodes == [] || depth + HeightOf(nodes) <= MAX_DEPTH + 2)
    decreases Rest(depth), |items| + 1
  {
    if items != [] {
      ReadWithin(items[0], depth, budget, outside);
      var head := ParseNode(items[0], depth, budget, outside);
      if head.Read? {
        BranchesWithin(items[1..], depth, head.left, outside);
        var tail := ParseBranches(items[1..], depth, head.left, outside);
        if tail.ReadAll? {
          assert ([head.node] + tail.nodes)[1..] == tail.nodes;
        }
      }
    }
  }

  lemma {:induction false} EqualitiesCount(source: Source, key: string, values: seq<Json>)
    ensures var nodes := Equalities(source, key, values);
      LeavesOf(nodes) == |values| && NoneEmpty(nodes) && HeightOf(nodes) <= 1
  {
    var nodes := Equalities(source, key, values);
    if values != [] {
      EqualitiesCount(source, key, values[1..]);
      assert nodes[1..] == Equalities(source, key, values[1..]);
    }
  }

  lemma {:induction false} BindsPerLeaf(node: Node)
    ensures C.Taken(node) <= 2 * Leaves(node)
  {
    match node
    case All(items) => BindsPerLeaves(items);
    case Any(items) => BindsPerLeaves(items);
    case Not(inner) => BindsPerLeaf(inner);
    case _ =>
  }

  lemma {:induction false} BindsPerLeaves(items: seq<Node>)
    ensures C.TakenBy(items) <= 2 * LeavesOf(items)
  {
    if items != [] {
      BindsPerLeaf(items[0]);
      BindsPerLeaves(items[1..]);
    }
  }

  /** Every accepted expression is bounded, whatever the size of the JSON: the
      budget of 64 leaves room for 63 leaf conditions, since any tree with more
      than one has a group to pay for. */
  lemma AcceptedIsBounded(v: Json, outside: Outside)
    requires ParseNode(v, 0, MAX_NODES, outside).Read?
    ensures var node := ParseNode(v, 0, MAX_NODES, outside).node;
      && NoEmptyAny(node)
      && Leaves(node) <= 63
      && C.Taken(node) <= 126
      && Height(node) <= 10
  {
    ReadWithin(v, 0, MAX_NODES, outside);
    var node := ParseNode(v, 0, MAX_NODES, outside).node;
    BindsPerLeaf(node);
    if Overhead(node) == 0 {
      SingleOrNegated(v, 0, MAX_NODES, outside);
    }
  }

  /** Without a group at the root there is one condition, or a negation that was
      itself paid for. */
  lemma {:induction false} SingleOrNegated(v: Json, depth: nat, budget: nat, outside: Outside)
    requires ParseNode(v, depth, budget, outside).Read?
    ensures Leaves(ParseNode(v, depth, budget, outside).node) <= 1
         || Leaves(ParseNode(v, depth, budget, outside).node) < budget
    decreases Rest(depth)
  {
    var obj := v.fields;
    ReadWithin(v, depth, budget, outside);
    if "all" !in obj && "any" !in obj && "not" in obj {
      ReadWithin(obj["not"], depth + 1, budget - 1, outside);
    }
  }

  // -------------------------------------------------------------- round trip

  function VersionName(cmp: Cmp): string {
    match cmp case Gte => "versionGte" case Gt => "versionGt" case Lte => "versionLte" case Lt => "versionLt"
  }

  function NumberName(cmp: Cmp): string {
    match cmp case Gte => "gte" case Gt => "gt" case Lte => "lte" case Lt => "lt"
  }

  function SourceName(source: Source): string {
    if source.Trait? then "trait" else "device"
  }

  /** An expression as the JSON that names it most directly. */
  function Render(node: Node, showUuid: int -> string): Json
    decreases node
  {
    match node
    case All(items) => JObject(map["all" := JArray(RenderAll(items, showUuid))])
    case Any(items) => JObject(map["any" := JArray(RenderAll(items, showUuid))])
    case Never => JObject(map["any" := JArray([])])
    case Not(inner) => JObject(map["not" := Render(inner, showUuid)])
    case UserKey(key) => JObject(map["userKey" := JString(key)])
    case Issue(id) => JObject(map["issue" := JString(showUuid(id))])
    case Exists(source, key) => JObject(map[SourceName(source) := JString(key), "exists" := JBool(true)])
    case Is(source, key, value) => JObject(map[SourceName(source) := JString(key), "is" := value])
    case Prefix(source, key, text) => JObject(map[SourceName(source) := JString(key), "prefix" := JString(text)])
    case Number(source, key, cmp, bound) =>
      JObject(map[SourceName(source) := JString(key), NumberName(cmp) := JNumber(bound)])
    case Version(source, key, cmp, version) =>
      JObject(map[SourceName(source) := JString(key), VersionName(cmp) := JString(version)])
  }

  function RenderAll(items: seq<Node>, showUuid: int -> string): seq<Json>
    decreases items
  {
    if items == [] then [] else [Render(items[0], showUuid)] + RenderAll(items[1..], showUuid)
  }

  /** The names and versions the parser insists on are not empty. */
  ghost predicate Writable(node: Node) {
    match node
    case All(items) => WritableAll(items)
    case Any(items) => items != [] && WritableAll(items)
    case Not(inner) => Writable(inner)
    case Never => true
    case UserKey(key) => key != ""
    case Issue(_) => true
    case Exists(_, key) => key != ""
    case Is(_, key, _) => key != ""
    case Prefix(_, key, _) => key != ""
    case Number(_, key, _, _) => key != ""
    case Version(_, key, _, version) => key != "" && version != ""
  }

  ghost predicate WritableAll(items: seq<Node>) {
    items == [] || (Writable(items[0]) && WritableAll(items[1..]))
  }

  /** Conditions a tree spends. */
  ghost function Cost(node: Node): nat {
    match node
    case All(items) => 1 + CostOf(items)
    case Any(items) => 1 + CostOf(items)
    case Not(inner) => 1 + Cost(inner)
    case _ => 1
  }

  ghost function CostOf(items: seq<Node>): nat {
    if items == [] then 0 else Cost(items[0]) + CostOf(items[1..])
  }

  /** The member names of a leaf are none of the names looked at before. */
  ghost predicate LeafNames(obj: Members) {
    && "all" !in obj && "any" !in obj && "not" !in obj && "user" !in obj && "issue" !in obj && "userKey" !in obj
    && "in" !in obj
  }

  lemma RenderedNumber(node: Node, showUuid: int -> string)
    requires node.Number? && node.key != ""
    ensures var obj := Render(node, showUuid).fields;
      LeafNames(obj) && ParseSubject(obj) == Ok((node.source, node.key))
      && ParseComparison(obj, node.source, node.key) == Ok(node)
  {
    var obj := Render(node, showUuid).fields;
    var name := NumberName(node.cmp);
    NumberNameIsNew(node.cmp, node.source);
    assert obj.Keys == {SourceName(node.source), name};
    NoneFound(obj, VERSION_OPS);
    FirstFound(obj, NUMBER_OPS, name, node.cmp, match node.cmp case Gte => 0 case Gt => 1 case Lte => 2 case Lt => 3);
  }

  lemma NumberNameIsNew(cmp: Cmp, source: Source)
    ensures var names := {SourceName(source), NumberName(cmp)};
      && (forall i | 0 <= i < |VERSION_OPS| :: VERSION_OPS[i].0 !in names)
      && "all" !in names && "any" !in names && "not" !in names && "user" !in names && "issue" !in names
      && "userKey" !in names && "in" !in names && "is" !in names && "isNot" !in names && "exists" !in names
      && "prefix" !in names
    ensures SourceName(source) != NumberName(cmp)
    ensures "trait" != "device" && NumberName(cmp) != "trait" && NumberName(cmp) != "device"
  {
  }

  lemma {:induction false} NoneFound(obj: Members, names: seq<(string, Cmp)>)
    requires forall i | 0 <= i < |names| :: names[i].0 !in obj
    ensures FirstOf(obj, names).None?
  {
    if names != [] {
      NoneFound(obj, names[1..]);
    }
  }

  lemma RenderedVersion(node: Node, showUuid: int -> string)
    requires node.Version? && node.key != "" && node.version != ""
    ensures var obj := Render(node, showUuid).fields;
      LeafNames(obj) && ParseSubject(obj) == Ok((node.source, node.key))
      && ParseComparison(obj, node.source, node.key) == Ok(node)
  {
    var obj := Render(node, showUuid).fields;
    var name := VersionName(node.cmp);
    assert name in obj && obj[name] == JString(node.version);
    FirstFound(obj, VERSION_OPS, name, node.cmp, match node.cmp case Gte => 0 case Gt => 1 case Lte => 2 case Lt => 3);
  }

  lemma {:induction false} FirstFound(obj: Members, names: seq<(string, Cmp)>, name: string, cmp: Cmp, at: nat)
    requires at < |names| && names[at] == (name, cmp) && name in obj
    requires forall i | 0 <= i < at :: names[i].0 !in obj
    ensures FirstOf(obj, names) == Some((name, cmp))
  {
    if at > 0 {
      FirstFound(obj, names[1..], name, cmp, at - 1);
    }
  }

  lemma RenderedLeaf(node: Node, showUuid: int -> string)
    requires (node.Exists? || node.Is? || node.Prefix?) && node.key != ""
    ensures var obj := Render(node, showUuid).fields;
      LeafNames(obj) && ParseSubject(obj) == Ok((node.source, node.key))
      && ParseComparison(obj, node.source, node.key) == Ok(node)
  {
  }

  lemma GroupRead(items: seq<Json>, inner: Json, depth: nat, budget: nat, outside: Outside)
    requires depth <= MAX_DEPTH && budget > 0
    ensures var r := ParseBranches(items, depth + 1, budget - 1, outside);
      && ParseNode(JObject(map["all" := JArray(items)]), depth, budget, outside)
         == (if r.DeniedAll? then Denied(r.why) else Read(All(r.nodes), r.left))
      && ParseNode(JObject(map["any" := JArray(items)]), depth, budget, outside)
         == (if r.DeniedAll? then Denied(r.why) else Read(if r.nodes == [] then Never else Any(r.nodes), r.left))
    ensures var r := ParseNode(inner, depth + 1, budget - 1, outside);
      ParseNode(JObject(map["not" := inner]), depth, budget, outside)
      == if r.Denied? then r else Read(Not(r.node), r.left)
  {
  }

  /** An expression written as JSON is read back unchanged, and is refused
      exactly when it costs more than the budget or nests too deep. */
  lemma {:induction false} RoundTrip(node: Node, depth: nat, budget: nat, outside: Outside, showUuid: int -> string)
    requires Writable(node) && forall id :: outside.parseUuid(showUuid(id)) == Some(id)
    ensures ParseNode(Render(node, showUuid), depth, budget, outside).Read?
       <==> Cost(node) <= budget && depth + Height(node) <= MAX_DEPTH + 1
    ensures ParseNode(Render(node, showUuid), depth, budget, outside).Read? ==>
      ParseNode(Render(node, showUuid), depth, budget, outside) == Read(node, budget - Cost(node))
    decreases node, 1
  {
    if depth <= MAX_DEPTH && budget > 0 {
      match node
      case All(items) => RoundTripGroup(node, items, depth, budget, outside, showUuid);
      case Any(items) => RoundTripGroup(node, items, depth, budget, outside, showUuid);
      case Not(inner) =>
        RoundTrip(inner, depth + 1, budget - 1, outside, showUuid);
        GroupRead([], Render(inner, showUuid), depth, budget, outside);
      case _ => RoundTripLeaf(node, depth, budget, outside, showUuid);
    }
  }

  lemma {:induction false} RoundTripGroup(node: Node, items: seq<Node>, depth: nat, budget: nat, outside: Outside,
                                          showUuid: int -> string)
    requires node == All(items) || node == Any(items)
    requires depth <= MAX_DEPTH && budget > 0
    requires Writable(node) && forall id :: outside.parseUuid(showUuid(id)) == Some(id)
    ensures ParseNode(Render(node, showUuid), depth, budget, outside).Read?
       <==> Cost(node) <= budget && depth + Height(node) <= MAX_DEPTH + 1
    ensures ParseNode(Render(node, showUuid), depth, budget, outside).Read? ==>
      ParseNode(Render(node, showUuid), depth, budget, outside) == Read(node, budget - Cost(node))
    decreases node, 0
  {
    RoundTripAll(items, depth + 1, budget - 1, outside, showUuid);
    GroupRead(RenderAll(items, showUuid), JNull, depth, budget, outside);
  }

  lemma RoundTripLeaf(node: Node, depth: nat, budget: nat, outside: Outside, showUuid: int -> string)
    requires Writable(node) && (node.Never? || C.IsLeaf(node)) && depth <= MAX_DEPTH && budget > 0
    requires forall id :: outside.parseUuid(showUuid(id)) == Some(id)
    ensures ParseNode(Render(node, showUuid), depth, budget, outside) == Read(node, budget - 1)
  {
    match node
    case Never => assert ParseBranches([], depth + 1, budget - 1, outside) == ReadAll([], budget - 1);
    case UserKey(_) =>
    case Issue(_) =>
    case Number(_, _, _, _) => RenderedNumber(node, showUuid);
    case Version(_, _, _, _) => RenderedVersion(node, showUuid);
    case _ => RenderedLeaf(node, showUuid);
  }

  lemma {:induction false} RoundTripAll(items: seq<Node>, depth: nat, budget: nat, outside: Outside,
                                        showUuid: int -> string)
    requires depth <= MAX_DEPTH + 1
    requires WritableAll(items) && forall id :: outside.parseUuid(showUuid(id)) == Some(id)
    ensures ParseBranches(RenderAll(items, showUuid), depth, budget, outside).ReadAll?
       <==> CostOf(items) <= budget && depth + HeightOf(items) <= MAX_DEPTH + 1
    ensures ParseBranches(RenderAll(items, showUuid), depth, budget, outside).ReadAll? ==>
      ParseBranches(RenderAll(items, showUuid), depth, budget, outside) == ReadAll(items, budget - CostOf(items))
    decreases items
  {
    if items != [] {
      RoundTrip(items[0], depth, budget, outside, showUuid);
      var head := ParseNode(Render(items[0], showUuid), depth, budget, outside);
      assert RenderAll(items, showUuid)[1..] == RenderAll(items[1..], showUuid);
      if head.Read? {
        RoundTripAll(items[1..], depth, head.left, outside, showUuid);
      }
    }
  }

  /** `in` is `any` over equalities, down to the budget it spends and the depth
      at which it is refused. */
  lemma {:induction false} InIsAny(source: Source, key: string, values: seq<Json>, depth: nat, budget: nat,
                                   outside: Outside)
    requires key != "" && values != []
    ensures
      var sugar := ParseNode(JObject(map[SourceName(source) := JString(key), "in" := JArray(values)]), depth, budget,
                             outside);
      var long := ParseNode(Render(Any(Equalities(source, key, values)), id => ""), depth, budget, outside);
      (sugar.Read? <==> long.Read?) && (sugar.Read? ==> sugar == long)
  {
    hide ParseNode, ParseBranches;
    InRead(source, key, values, depth, budget, outside);
    if depth > MAX_DEPTH || budget == 0 {
      NothingLeft(Render(Any(Equalities(source, key, values)), id => ""), depth, budget, outside);
    } else {
      EqualitiesParse(source, key, values, depth + 1, budget - 1, outside);
      GroupRead(RenderAll(Equalities(source, key, values), id => ""), JNull, depth, budget, outside);
      EqualitiesCount(source, key, values);
    }
  }

  lemma {:induction false} NothingLeft(v: Json, depth: nat, budget: nat, outside: Outside)
    requires depth > MAX_DEPTH || budget == 0
    ensures ParseNode(v, depth, budget, outside).Denied?
  {
  }

  lemma {:induction false} InRead(source: Source, key: string, values: seq<Json>, depth: nat, budget: nat,
                                  outside: Outside)
    requires key != "" && values != []
    ensures ParseNode(JObject(map[SourceName(source) := JString(key), "in" := JArray(values)]), depth, budget,
                      outside) ==
            if depth > MAX_DEPTH then Denied(TooDeep)
            else if budget == 0 || budget - 1 < |values| then Denied(TooMany)
            else if depth + 1 > MAX_DEPTH then Denied(TooDeep)
            else Read(Any(Equalities(source, key, values)), budget - 1 - |values|)
  {
    var obj := map[SourceName(source) := JString(key), "in" := JArray(values)];
    assert ParseSubject(obj) == Ok((source, key));
  }

  lemma {:induction false} EqualitiesParse(source: Source, key: string, values: seq<Json>, depth: nat, budget: nat,
                                           outside: Outside)
    requires key != ""
    ensures
      var nodes := Equalities(source, key, values);
      var r := ParseBranches(RenderAll(nodes, id => ""), depth, budget, outside);
      && (r.ReadAll? <==> |values| <= budget && (values == [] || depth <= MAX_DEPTH))
      && (r.ReadAll? ==> r == ReadAll(nodes, budget - |values|))
  {
    var nodes := Equalities(source, key, values);
    if values != [] {
      RenderedLeaf(nodes[0], id => "");
      assert nodes[1..] == Equalities(source, key, values[1..]);
      var rest := RenderAll(nodes, id => "");
      assert rest[1..] == RenderAll(nodes[1..], id => "");
      if depth <= MAX_DEPTH && budget > 0 {
        EqualitiesParse(source, key, values[1..], depth, budget - 1, outside);
      }
    }
  }
}
