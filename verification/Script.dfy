/** Scripted replies of an inquiry (service/messaging/bot.go): configurations and their validation. */
module ReplyScript {
  import opened Common

  datatype Choice = Choice(id: string, caption: string, next: string)
  datatype Node = Node(id: string, text: string, choices: seq<Choice>)
  datatype Config = Config(enabled: bool, start: string, nodes: seq<Node>)

  /** The choice id with which a requester asks to go back to the start. */
  const RESTART := "__restart"

  const DISABLED := Config(false, "", [])

  function Trim(s: string): string {
    if s != "" && IsSpace(s[0]) then Trim(s[1..])
    else if s != "" && IsSpace(s[|s| - 1]) then Trim(s[..|s| - 1])
    else s
  }

  /** Trimming removes white space at both ends, and nothing else. */
  lemma {:induction false} TrimIs(s: string) returns (left: string, right: string)
    ensures s == left + Trim(s) + right
    ensures (forall c <- left :: IsSpace(c)) && (forall c <- right :: IsSpace(c))
    ensures var t := Trim(s); t != "" ==> !IsSpace(t[0]) && !IsSpace(t[|t| - 1])
  {
    hide IsSpace;
    left, right := "", "";
    if s != "" && IsSpace(s[0]) {
      left, right := TrimIs(s[1..]);
      left := [s[0]] + left;
    } else if s != "" && IsSpace(s[|s| - 1]) {
      left, right := TrimIs(s[..|s| - 1]);
      right := right + [s[|s| - 1]];
    }
  }

  function NodeIds(nodes: seq<Node>): set<string> {
    set n <- nodes :: n.id
  }

  function ChoiceIds(choices: seq<Choice>): set<string> {
    set c <- choices :: c.id
  }

  predicate ChoiceOk(c: Choice) {
    && c.id != RESTART && 1 <= |c.id| <= 64
    && Trim(c.caption) != "" && |c.caption| <= 80
  }

  /** Choices of one node have different ids. */
  predicate ChoicesOk(choices: seq<Choice>) {
    && |choices| <= 6
    && (forall c <- choices :: ChoiceOk(c))
    && forall i, j :: 0 <= i < j < |choices| ==> choices[i].id != choices[j].id
  }

  predicate NodeOk(n: Node) {
    && Trim(n.id) != "" && |n.id| <= 64
    && Trim(n.text) != "" && |n.text| <= 2000
    && ChoicesOk(n.choices)
  }

  predicate Targets(nodes: seq<Node>, ids: set<string>) {
    forall n <- nodes :: forall c <- n.choices :: c.next in ids
  }

  predicate NodesOk(nodes: seq<Node>) {
    && (forall n <- nodes :: NodeOk(n))
    && forall i, j :: 0 <= i < j < |nodes| ==> nodes[i].id != nodes[j].id
  }

  /** What a script must be: distinct nodes with distinct choices, a start, and no choice that leads nowhere. */
  predicate Valid(b: Config) {
    && |b.nodes| <= 16
    && NodesOk(b.nodes)
    && (b.enabled ==> b.start in NodeIds(b.nodes))
    && Targets(b.nodes, NodeIds(b.nodes))
  }

  method ValidateChoices(list: seq<Choice>) returns (ok: bool)
    ensures ok <==> ChoicesOk(list)
  {
    if |list| > 6 {
      return false;
    }
    var seen: set<string> := {};
    for i := 0 to |list|
      invariant ChoicesOk(list[..i]) && seen == ChoiceIds(list[..i])
    {
      assert list[..i + 1] == list[..i] + [list[i]] && list[i] in list;
      if !ChoiceOk(list[i]) {
        return false;
      }
      if list[i].id in seen {
        var j :| 0 <= j < i && list[j].id == list[i].id;
        return false;
      }
      seen := seen + {list[i].id};
    }
    assert list[..|list|] == list;
    ok := true;
  }

  method ValidateNode(n: Node, seen: set<string>) returns (ok: bool)
    ensures ok <==> NodeOk(n) && n.id !in seen
  {
    if Trim(n.id) == "" || |n.id| > 64 || n.id in seen || Trim(n.text) == "" || |n.text| > 2000 {
      return false;
    }
    ok := ValidateChoices(n.choices);
  }

  method ValidateNodes(nodes: seq<Node>) returns (ok: bool)
    ensures ok <==> NodesOk(nodes)
  {
    hide NodeOk;
    var seen: set<string> := {};
    for i := 0 to |nodes|
      invariant NodesOk(nodes[..i]) && seen == NodeIds(nodes[..i])
    {
      assert nodes[..i + 1] == nodes[..i] + [nodes[i]] && nodes[i] in nodes;
      ok := ValidateNode(nodes[i], seen);
      if !ok {
        return;
      }
      seen := seen + {nodes[i].id};
    }
    assert nodes[..|nodes|] == nodes;
    ok := true;
  }

  method ValidateTargets(nodes: seq<Node>) returns (ok: bool)
    ensures ok <==> Targets(nodes, NodeIds(nodes))
  {
    var ids := NodeIds(nodes);
    for i := 0 to |nodes|
      invariant Targets(nodes[..i], ids)
    {
      var n := nodes[i];
      assert nodes[..i + 1] == nodes[..i] + [n] && n in nodes;
      for k := 0 to |n.choices|
        invariant forall c <- n.choices[..k] :: c.next in ids
      {
        assert n.choices[..k + 1] == n.choices[..k] + [n.choices[k]] && n.choices[k] in n.choices;
        if n.choices[k].next !in ids {
          return false;
        }
      }
      assert n.choices[..|n.choices|] == n.choices;
    }
    assert nodes[..|nodes|] == nodes;
    ok := true;
  }

  /** `BotConfig.Validate` without its limit on the encoded size. */
  method Validate(b: Config) returns (ok: bool)
    ensures ok <==> Valid(b)
  {
    hide NodesOk, Targets;
    if |b.nodes| > 16 {
      return false;
    }
    ok := ValidateNodes(b.nodes);
    if !ok || (b.enabled && b.start !in NodeIds(b.nodes)) {
      return false;
    }
    ok := ValidateTargets(b.nodes);
  }

  function FindNode(nodes: seq<Node>, id: string): (r: Option<Node>)
    ensures r.Some? <==> id in NodeIds(nodes)
    ensures r.Some? ==> r.value in nodes && r.value.id == id
  {
    if nodes == [] then None
    else if nodes[0].id == id then Some(nodes[0])
    else
      assert forall n <- nodes :: n == nodes[0] || n in nodes[1..];
      FindNode(nodes[1..], id)
  }

  function ChoicesOf(b: Config, id: string): seq<Choice> {
    var n := FindNode(b.nodes, id);
    if n.Some? then n.value.choices else []
  }

  /** One step of a conversation through a script: the target of a choice, or back to the start. */
  predicate Leads(b: Config, from: string, to: string) {
    to == b.start || exists c <- ChoicesOf(b, from) :: c.next == to
  }

  /** In a valid script every step ends at a node, and node ids are never empty. */
  lemma LeadsToNode(b: Config, from: string, to: string)
    requires Valid(b) && b.enabled && Leads(b, from, to)
    ensures FindNode(b.nodes, to).Some? && to != ""
  {
    var node := FindNode(b.nodes, from);
    if to != b.start {
      var c :| c in ChoicesOf(b, from) && c.next == to;
      assert node.value in b.nodes;
    }
    var n := FindNode(b.nodes, to).value;
    assert NodeOk(n) && n.id == to;
  }

  /** A valid script, spelled out. */
  lemma ValidIs(b: Config)
    ensures Valid(b) <==>
            && |b.nodes| <= 16 && (b.enabled ==> exists n <- b.nodes :: n.id == b.start)
            && (forall i, j :: 0 <= i < j < |b.nodes| ==> b.nodes[i].id != b.nodes[j].id)
            && forall n <- b.nodes ::
                 && Trim(n.id) != "" && |n.id| <= 64 && Trim(n.text) != "" && |n.text| <= 2000 && |n.choices| <= 6
                 && (forall i, j :: 0 <= i < j < |n.choices| ==> n.choices[i].id != n.choices[j].id)
                 && forall c <- n.choices ::
                      && c.id != "__restart" && 1 <= |c.id| <= 64 && Trim(c.caption) != "" && |c.caption| <= 80
                      && exists m <- b.nodes :: m.id == c.next
  {
    hide Trim;
  }
}
