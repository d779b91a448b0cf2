/** `audience.rs`, parse half: a JSON condition becomes an expression, within a
    depth and a count of conditions. */
module AudienceReader {
  import opened Prelude
  import opened Json
  import opened AudienceTree

  const MAX_DEPTH: nat := 8
  const MAX_NODES: nat := 64

  datatype Refusal =
    | TooDeep | TooMany | NotAnObject | NotAList
    | BadUser | EmptyUser | BadIssue | BadUserKey
    | BothNamespaces | NoNamespace | BadName | BadIn
    | BadExists | BadPrefix | BadVersion | BadNumber | NoComparison
    | SeveralTargets | EmptyAppUser | TraitsNotAnObject | TraitsEmpty

  datatype Result<+T> = Ok(value: T) | Refuse(why: Refusal)

  /** What the request handler gets from elsewhere: the identity hash, which has
      no value for an empty id, and the UUID syntax. */
  datatype Outside = Outside(hashUser: string -> Option<string>, parseUuid: string -> Option<int>)

  type Members = map<string, Json>

  function NonEmptyText(v: Json): Option<string> {
    if v.JString? && v.s != "" then Some(v.s) else None
  }

  /** The first of these operators the condition carries. */
  function FirstOf(obj: Members, names: seq<(string, Cmp)>): Option<(string, Cmp)> {
    if names == [] then None
    else if names[0].0 in obj then Some(names[0])
    else FirstOf(obj, names[1..])
  }

  const VERSION_OPS: seq<(string, Cmp)> :=
    [("versionGte", Gte), ("versionGt", Gt), ("versionLte", Lte), ("versionLt", Lt)]
  const NUMBER_OPS: seq<(string, Cmp)> := [("gte", Gte), ("gt", Gt), ("lte", Lte), ("lt", Lt)]

  /** Which comparison a leaf is asking for. */
  function ParseComparison(obj: Members, source: Source, key: string): Result<Node> {
    if "is" in obj then Ok(Is(source, key, obj["is"]))
    else if "isNot" in obj then Ok(Not(Is(source, key, obj["isNot"])))
    else if "exists" in obj then
      (match obj["exists"]
       case JBool(want) => Ok(if want then Exists(source, key) else Not(Exists(source, key)))
       case _ => Refuse(BadExists))
    else if "prefix" in obj then
      (match obj["prefix"]
       case JString(s) => Ok(Prefix(source, key, s))
       case _ => Refuse(BadPrefix))
    else
      var version := FirstOf(obj, VERSION_OPS);
      if version.Some? && version.value.0 in obj then
        var s := NonEmptyText(obj[version.value.0]);
        if s.Some? then Ok(Version(source, key, version.value.1, s.value)) else Refuse(BadVersion)
      else
        var number := FirstOf(obj, NUMBER_OPS);
        if number.Some? && number.value.0 in obj then
          (match obj[number.value.0]
           case JNumber(n) => Ok(Number(source, key, number.value.1, n))
           case _ => Refuse(BadNumber))
        else Refuse(NoComparison)
  }

  /** What a leaf compares. */
  function ParseSubject(obj: Members): Result<(Source, string)> {
    if "trait" in obj && "device" in obj then Refuse(BothNamespaces)
    else if "trait" !in obj && "device" !in obj then Refuse(NoNamespace)
    else
      var source := if "trait" in obj then Trait else Device;
      var key := NonEmptyText(if "trait" in obj then obj["trait"] else obj["device"]);
      if key.Some? then Ok((source, key.value)) else Refuse(BadName)
  }

  /** A tree and what is left of the budget, or a refusal. */
  datatype Reading = Read(node: Node, left: nat) | Denied(why: Refusal)
  datatype Readings = ReadAll(nodes: seq<Node>, left: nat) | DeniedAll(why: Refusal)

  function Spend(r: Result<Node>, left: nat): Reading {
    if r.Ok? then Read(r.value, left) else Denied(r.why)
  }

  function Equalities(source: Source, key: string, values: seq<Json>): (nodes: seq<Node>)
    ensures |nodes| == |values| && forall i | 0 <= i < |nodes| :: nodes[i] == Is(source, key, values[i])
  {
    seq(|values|, i requires 0 <= i < |values| => Is(source, key, values[i]))
  }

  function ParseLeaf(obj: Members, depth: nat, budget: nat): Reading {
    var subject := ParseSubject(obj);
    if subject.Refuse? then Denied(subject.why)
    else
      var (source, key) := subject.value;
      if "in" in obj then
        (match obj["in"]
         case JArray(values) =>
           if values == [] then Read(Never, budget)
           else if budget < |values| then Denied(TooMany)
           else if depth + 1 > MAX_DEPTH then Denied(TooDeep)
           else Read(Any(Equalities(source, key, values)), budget - |values|)
         case _ => Denied(BadIn))
      else Spend(ParseComparison(obj, source, key), budget)
  }

  function Rest(depth: nat): nat {
    if depth > MAX_DEPTH then 0 else MAX_DEPTH + 1 - depth
  }

  function ParseNode(v: Json, depth: nat, budget: nat, outside: Outside): Reading
    decreases Rest(depth), 0
  {
    if depth > MAX_DEPTH then Denied(TooDeep)
    else if budget == 0 then Denied(TooMany)
    else if !v.JObject? then Denied(NotAnObject)
    else
      var obj, left := v.fields, budget - 1;
      if "all" in obj then
        var r := ParseList(obj["all"], depth, left, outside);
        if r.DeniedAll? then Denied(r.why) else Read(All(r.nodes), r.left)
      else if "any" in obj then
        var r := ParseList(obj["any"], depth, left, outside);
        if r.DeniedAll? then Denied(r.why)
        else Read(if r.nodes == [] then Never else Any(r.nodes), r.left)
      else if "not" in obj then
        var r := ParseNode(obj["not"], depth + 1, left, outside);
        if r.Denied? then r else Read(Not(r.node), r.left)
      else if "user" in obj then
        (match obj["user"]
         case JString(id) =>
           var key := outside.hashUser(id);
           if key.Some? then Read(UserKey(key.value), left) else Denied(EmptyUser)
         case _ => Denied(BadUser))
      else if "issue" in obj then
        (match obj["issue"]
         case JString(s) =>
           var id := outside.parseUuid(s);
           if id.Some? then Read(Issue(id.value), left) else Denied(BadIssue)
         case _ => Denied(BadIssue))
      else if "userKey" in obj then
        var k := NonEmptyText(obj["userKey"]);
        if k.Some? then Read(UserKey(k.value), left) else Denied(BadUserKey)
      else ParseLeaf(obj, depth, left)
  }

  function ParseList(list: Json, depth: nat, budget: nat, outside: Outside): Readings
    requires depth <= MAX_DEPTH
    decreases Rest(depth + 1), if list.JArray? then |list.items| + 2 else 1
  {
    if list.JArray? then ParseBranches(list.items, depth + 1, budget, outside) else DeniedAll(NotAList)
  }

  /** Branches in order, stopping at the first refusal. */
  function ParseBranches(items: seq<Json>, depth: nat, budget: nat, outside: Outside): Readings
    decreases Rest(depth), |items| + 1
  {
    if items == [] then ReadAll([], budget)
    else
      var head := ParseNode(items[0], depth, budget, outside);
      if head.Denied? then DeniedAll(head.why)
      else
        var tail := ParseBranches(items[1..], depth, head.left, outside);
        if tail.DeniedAll? then tail else ReadAll([head.node] + tail.nodes, tail.left)
  }

  ghost function Prepended(nodes: seq<Node>, r: Readings): Readings {
    if r.DeniedAll? then r else ReadAll(nodes + r.nodes, r.left)
  }

  lemma BranchStep(nodes: seq<Node>, items: seq<Json>, i: nat, depth: nat, budget: nat, outside: Outside)
    requires i < |items|
    ensures Prepended(nodes, ParseBranches(items[i..], depth, budget, outside))
         == match ParseNode(items[i], depth, budget, outside)
            case Denied(why) => DeniedAll(why)
            case Read(node, left) => Prepended(nodes + [node], ParseBranches(items[i + 1..], depth, left, outside))
  {
    assert items[i..][0] == items[i] && items[i..][1..] == items[i + 1..];
    var head := ParseNode(items[i], depth, budget, outside);
    if head.Read? {
      var tail := ParseBranches(items[i + 1..], depth, head.left, outside);
      if tail.ReadAll? {
        assert nodes + ([head.node] + tail.nodes) == nodes + [head.node] + tail.nodes;
      }
    }
  }

  /** The parser: one budget, shared by the whole tree and spent as it is read. */
  class Parser {
    var budget: nat
    const outside: Outside

    constructor (budget: nat, outside: Outside)
      ensures this.budget == budget && this.outside == outside
    {
      this.budget := budget;
      this.outside := outside;
    }

    /** The outcome so far agrees with what the specification reads. */
    ghost predicate Agrees(r: Result<Node>, spec: Reading)
      reads this
    {
      match spec
      case Read(node, left) => r == Ok(node) && budget == left
      case Denied(why) => r == Refuse(why)
    }

    ghost predicate AgreesAll(r: Result<seq<Node>>, spec: Readings)
      reads this
    {
      match spec
      case ReadAll(nodes, left) => r == Ok(nodes) && budget == left
      case DeniedAll(why) => r == Refuse(why)
    }

    method Parse(v: Json, depth: nat) returns (r: Result<Node>)
      modifies this
      ensures Agrees(r, ParseNode(v, depth, old(budget), outside))
      decreases Rest(depth), 0
    {
      if depth > MAX_DEPTH { return Refuse(TooDeep); }
      if budget == 0 { return Refuse(TooMany); }
      budget := budget - 1;
      if !v.JObject? { return Refuse(NotAnObject); }
      var obj := v.fields;
      if "all" in obj {
        var list := ParseItems(obj["all"], depth);
        return if list.Ok? then Ok(All(list.value)) else Refuse(list.why);
      }
      if "any" in obj {
        var list := ParseItems(obj["any"], depth);
        if list.Refuse? { return Refuse(list.why); }
        return Ok(if list.value == [] then Never else Any(list.value));
      }
      if "not" in obj {
        var inner := Parse(obj["not"], depth + 1);
        return if inner.Ok? then Ok(Not(inner.value)) else inner;
      }
      if "user" in obj {
        if !obj["user"].JString? { return Refuse(BadUser); }
        var key := outside.hashUser(obj["user"].s);
        return if key.Some? then Ok(UserKey(key.value)) else Refuse(EmptyUser);
      }
      if "issue" in obj {
        if !obj["issue"].JString? { return Refuse(BadIssue); }
        var id := outside.parseUuid(obj["issue"].s);
        return if id.Some? then Ok(Issue(id.value)) else Refuse(BadIssue);
      }
      if "userKey" in obj {
        var k := NonEmptyText(obj["userKey"]);
        return if k.Some? then Ok(UserKey(k.value)) else Refuse(BadUserKey);
      }
      r := ParseCondition(obj, depth);
    }

    method ParseItems(list: Json, depth: nat) returns (r: Result<seq<Node>>)
      requires depth <= MAX_DEPTH
      modifies this
      ensures AgreesAll(r, ParseList(list, depth, old(budget), outside))
      decreases Rest(depth + 1), 1
    {
      if !list.JArray? { return Refuse(NotAList); }
      var nodes := [];
      ghost var whole := ParseBranches(list.items, depth + 1, budget, outside);
      assert list.items[0..] == list.items;
      for i := 0 to |list.items|
        invariant whole == Prepended(nodes, ParseBranches(list.items[i..], depth + 1, budget, outside))
      {
        BranchStep(nodes, list.items, i, depth + 1, budget, outside);
        var one := Parse(list.items[i], depth + 1);
        if one.Refuse? { return Refuse(one.why); }
        nodes := nodes + [one.value];
      }
      assert list.items[|list.items|..] == [] && nodes + [] == nodes;
      r := Ok(nodes);
    }

    method ParseCondition(obj: Members, depth: nat) returns (r: Result<Node>)
      modifies this
      ensures Agrees(r, ParseLeaf(obj, depth, old(budget)))
    {
      var subject := ParseSubject(obj);
      if subject.Refuse? { return Refuse(subject.why); }
      var (source, key) := subject.value;
      if "in" in obj {
        if !obj["in"].JArray? { return Refuse(BadIn); }
        var values := obj["in"].items;
        if values == [] { return Ok(Never); }
        if budget < |values| { return Refuse(TooMany); }
        budget := budget - |values|;
        if depth + 1 > MAX_DEPTH { return Refuse(TooDeep); }
        return Ok(Any(Equalities(source, key, values)));
      }
      r := ParseComparison(obj, source, key);
    }
  }

  /** `from_request`: one of the three ways of naming an audience, or none.
      `keys` is the order in which the `traits` object is iterated. */
  method FromRequest(
    appUserId: Option<string>, traits: Option<Json>, audience: Option<Json>, keys: seq<string>, outside: Outside)
    returns (r: Result<Option<Node>>)
    requires traits.Some? && traits.value.JObject? ==>
      (forall k :: k in keys <==> k in traits.value.fields) && forall i, j | 0 <= i < j < |keys| :: keys[i] != keys[j]
    ensures appUserId.None? && traits.None? && audience.None? <==> r == Ok(None)
    ensures (appUserId.Some? && traits.Some?) || (appUserId.Some? && audience.Some?) || (traits.Some? && audience.Some?)
      ==> r == Refuse(SeveralTargets)
    ensures appUserId.Some? && traits.None? && audience.None? ==>
      var id := map["user" := JString(appUserId.value)];
      match ParseNode(JObject(id), 0, MAX_NODES, outside)
      case Read(node, _) => r == Ok(Some(node))
      case Denied(_) => r == Refuse(EmptyAppUser)
    ensures appUserId.None? && traits.None? && audience.Some? ==>
      match ParseNode(audience.value, 0, MAX_NODES, outside)
      case Read(node, _) => r == Ok(Some(node))
      case Denied(why) => r == Refuse(why)
    ensures appUserId.None? && traits.Some? && audience.None? ==>
      if !traits.value.JObject? then r == Refuse(TraitsNotAnObject)
      else if traits.value.fields == map[] then r == Refuse(TraitsEmpty)
      else
        && r.Ok? && r.value.Some? && r.value.value.All? && |r.value.value.items| == |keys|
        && forall i | 0 <= i < |keys| ::
          r.value.value.items[i] == Is(Trait, keys[i], traits.value.fields[keys[i]])
  {
    var given := (if appUserId.Some? then 1 else 0) + (if traits.Some? then 1 else 0)
        + (if audience.Some? then 1 else 0);
    if given > 1 { return Refuse(SeveralTargets); }
    if appUserId.Some? {
      var key := outside.hashUser(appUserId.value);
      if key.None? { return Refuse(EmptyAppUser); }
      return Ok(Some(UserKey(key.value)));
    }
    if traits.Some? {
      if !traits.value.JObject? { return Refuse(TraitsNotAnObject); }
      if traits.value.fields == map[] { return Refuse(TraitsEmpty); }
      var fields := traits.value.fields;
      return Ok(Some(All(seq(|keys|, i requires 0 <= i < |keys| => Is(Trait, keys[i], fields[keys[i]])))));
    }
    if audience.None? { return Ok(None); }
    var parser := new Parser(MAX_NODES, outside);
    var root := parser.Parse(audience.value, 0);
    return if root.Ok? then Ok(Some(root.value)) else Refuse(root.why);
  }
}
