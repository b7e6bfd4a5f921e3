/** The flow graph handed to the engine: nodes tagged by kind, and edges. The
    source keeps per-kind data in an untyped blob and dispatches on `node.type`;
    here the kind is a tagged union, with `Other` for any type string the engine
    does not handle. */
module Flow {
  import opened Wrappers

  type NodeId = string

  /** The model-call settings of a prompt node. */
  datatype PromptData = PromptData(
    systemPrompt: string,
    userPrompt: string,
    model: string,
    temperature: real,   // passed through unchanged
    maxTokens: int,
    jsonMode: bool)

  datatype NodeKind =
    | Input(value: Option<string>)   // `data.value`, possibly absent
    | Prompt(data: PromptData)
    | End
    | Other(typeName: string)

  datatype Node = Node(id: NodeId, kind: NodeKind)

  /** A directed dependency: `target` runs after `source`. */
  datatype Edge = Edge(id: string, source: NodeId, target: NodeId)

  /** The ids of a sequence of nodes, position by position. */
  function Ids(s: seq<Node>): (ids: seq<NodeId>)
    ensures |ids| == |s| && forall i :: 0 <= i < |s| ==> ids[i] == s[i].id
  {
    seq(|s|, i requires 0 <= i < |s| => s[i].id)
  }

  /** The set of ids occurring in `s`. */
  function IdSet(s: seq<Node>): set<NodeId> {
    set n | n in s :: n.id
  }

  lemma IdSetAppend(s: seq<Node>, n: Node)
    ensures IdSet(s + [n]) == IdSet(s) + {n.id}
  {
    forall x | x in IdSet(s + [n]) ensures x in IdSet(s) + {n.id} {
      var m :| m in s + [n] && m.id == x;
      if m != n { assert m in s; }
    }
  }

  /** No two nodes share an id. The editor creates nodes with fresh ids, but the
      engine does not check this. */
  ghost predicate UniqueIds(s: seq<Node>) {
    forall i, j :: 0 <= i < j < |s| ==> s[i].id != s[j].id
  }

  lemma UniqueIdsSame(s: seq<Node>, a: Node, b: Node)
    requires UniqueIds(s) && a in s && b in s && a.id == b.id
    ensures a == b
  {
    var i :| 0 <= i < |s| && s[i] == a;
    var j :| 0 <= j < |s| && s[j] == b;
  }
}
