/** `User`: a Twitter user read back from the graph database, with the
    graph node's id and its properties kept in insertion order (a Python
    dict), and its printed form `User(k=v, ...)`. */
module User {
  import opened Common

  /** A node of the graph database: its id and its properties in the order
      `keys()` yields them. */
  datatype GraphNode = GraphNode(id: int, entries: seq<(string, Json)>)

  // ------------------------------------------------ insertion-ordered dicts

  predicate DistinctKeys(entries: seq<(string, Json)>)
  {
    forall i, j :: 0 <= i < j < |entries| ==> entries[i].0 != entries[j].0
  }

  /** `d[key] = value` on a dict kept as its items in order: an existing key
      keeps its place, a new one goes last. */
  function DictSet(entries: seq<(string, Json)>, key: string, value: Json): (r: seq<(string, Json)>)
    ensures DistinctKeys(entries) ==> DistinctKeys(r)
    ensures forall k :: 0 <= k < |r| ==> r[k].0 == key || r[k] in entries
    ensures (key, value) in r
    ensures |r| == |entries| + (if exists k :: 0 <= k < |entries| && entries[k].0 == key then 0 else 1)
  {
    if |entries| == 0 then [(key, value)]
    else if entries[0].0 == key then [(key, value)] + entries[1..]
    else
      var rest := DictSet(entries[1..], key, value);
      assert forall k :: 0 < k < |entries| ==> entries[k] == entries[1..][k - 1];
      [entries[0]] + rest
  }

  /** The dict filled from `entries` one assignment at a time. */
  function Filled(entries: seq<(string, Json)>): seq<(string, Json)>
  {
    if |entries| == 0 then []
    else DictSet(Filled(entries[..|entries| - 1]), entries[|entries| - 1].0, entries[|entries| - 1].1)
  }

  /** With distinct keys each assignment adds a new key at the end, so the
      dict holds exactly the node's properties, in the node's order. */
  lemma {:induction false} FilledDistinct(entries: seq<(string, Json)>)
    requires DistinctKeys(entries)
    ensures Filled(entries) == entries
  {
    if |entries| > 0 {
      var init := entries[..|entries| - 1];
      var last := entries[|entries| - 1];
      FilledDistinct(init);
      AppendNew(init, last.0, last.1);
      assert entries == init + [last];
    }
  }

  lemma {:induction false} AppendNew(entries: seq<(string, Json)>, key: string, value: Json)
    requires forall k :: 0 <= k < |entries| ==> entries[k].0 != key
    ensures DictSet(entries, key, value) == entries + [(key, value)]
  {
    if |entries| > 0 {
      AppendNew(entries[1..], key, value);
      assert entries == [entries[0]] + entries[1..];
    }
  }

  // ------------------------------------------------------------------ str

  /** `str(key) + "=" + str(val)` for each item, in order. */
  function Pairs(entries: seq<(string, Json)>): (r: seq<string>)
    ensures |r| == |entries|
    ensures forall k :: 0 <= k < |entries| ==> r[k] == entries[k].0 + "=" + PyStr(entries[k].1)
  {
    if |entries| == 0 then [] else [entries[0].0 + "=" + PyStr(entries[0].1)] + Pairs(entries[1..])
  }

  /** `"User(" + ", ".join(pairs) + ")"` */
  function UserString(entries: seq<(string, Json)>): string
  {
    "User(" + Join(Pairs(entries), ", ") + ")"
  }

  /** No properties print as `User()`; one prints as `User(k=v)`. */
  lemma UserStringSmall(key: string, value: Json)
    ensures UserString([]) == "User()"
    ensures UserString([(key, value)]) == "User(" + key + "=" + PyStr(value) + ")"
  {
  }

  /** The printed form is wrapped in `User(` and `)`. */
  lemma UserStringWrapped(entries: seq<(string, Json)>)
    ensures StartsWith(UserString(entries), "User(")
    ensures |UserString(entries)| >= 6 && UserString(entries)[|UserString(entries)| - 1] == ')'
  {
    var inner := Join(Pairs(entries), ", ");
    assert UserString(entries) == "User(" + inner + ")";
    assert UserString(entries)[..5] == "User(";
  }

  // ----------------------------------------------------------------- User

  class User {
    var nodeId: int
    var properties: seq<(string, Json)>

    /** A new user is not yet tied to a node: id -1, no properties. */
    constructor()
      ensures nodeId == -1 && properties == []
    {
      nodeId := -1;
      properties := [];
    }

    /** `__str__` */
    function Str(): (s: string)
      reads this
    {
      UserString(properties)
    }

    /** `__repr__` is `__str__`. */
    function Repr(): (s: string)
      reads this
      ensures s == Str()
    {
      Str()
    }
  }

  /** `User.parseFromGraphNode`: a new user with the node's id and each of
      the node's properties assigned in turn. */
  method ParseFromGraphNode(node: GraphNode) returns (user: User)
    ensures fresh(user)
    ensures user.nodeId == node.id
    ensures user.properties == Filled(node.entries)
    ensures DistinctKeys(node.entries) ==> user.properties == node.entries
  {
    user := new User();
    user.nodeId := node.id;
    var i := 0;
    while i < |node.entries|
      invariant i <= |node.entries|
      invariant user.nodeId == node.id
      invariant user.properties == Filled(node.entries[..i])
    {
      var (key, value) := node.entries[i];
      assert node.entries[..i + 1][..i] == node.entries[..i];
      user.properties := DictSet(user.properties, key, value);
      i := i + 1;
    }
    assert node.entries[..i] == node.entries;
    if DistinctKeys(node.entries) {
      FilledDistinct(node.entries);
    }
  }
}
