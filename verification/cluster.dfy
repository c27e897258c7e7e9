/** get_cluster_status (k8s_tools.py:123-154): `kubectl cluster-info`, then
    `kubectl get nodes -o json` for a per-node Ready line. */
module ClusterStatus {
  import opened Wrappers
  import opened JsonModel
  import opened Runner
  import Text

  const ClusterInfoCommand: seq<string> := ["cluster-info"]
  const NodesCommand: seq<string> := ["get", "nodes", "-o", "json"]

  const Title: string := "\U{1F3D7}\U{FE0F} Kubernetes Cluster Information:"
  const NodeHeader: string := "\U{1F4CA} Node Status:"
  const NoNodeInfo: string := "\U{274C} Could not retrieve node information"

  function ClusterErrorMessage(error: string): string {
    "\U{274C} Error getting cluster info: " + error
  }

  // ----------------------------------------------------------- conditions

  /** `condition["type"] == "Ready" and condition["status"] == "True"`. */
  predicate IsReadyCondition(c: Json) {
    Get(c, "type") == Some(JString("Ready")) && Get(c, "status") == Some(JString("True"))
  }

  /** The test above reads this condition without raising: "type" is
      there, and "status" is there whenever type is "Ready". */
  predicate ConditionEvaluable(c: Json) {
    Has(c, "type") && (c.fields["type"] == JString("Ready") ==> Has(c, "status"))
  }

  /** any() stops at the first Ready condition, so only the conditions up to
      and including it are read. */
  predicate ConditionsEvaluable(cs: seq<Json>) {
    forall i :: 0 <= i < |cs| ==>
      ConditionEvaluable(cs[i]) || exists k :: 0 <= k < i && IsReadyCondition(cs[k])
  }

  /** The any(...) scan over the conditions, left to right. */
  function AnyReady(cs: seq<Json>): bool {
    if |cs| == 0 then false else IsReadyCondition(cs[0]) || AnyReady(cs[1..])
  }

  /** The scan answers true exactly when some condition is Ready/True. */
  lemma {:induction false} AnyReadyIff(cs: seq<Json>)
    ensures AnyReady(cs) <==> exists i :: 0 <= i < |cs| && IsReadyCondition(cs[i])
  {
    if |cs| > 0 {
      AnyReadyIff(cs[1..]);
      if AnyReady(cs[1..]) {
        var i :| 0 <= i < |cs[1..]| && IsReadyCondition(cs[1..][i]);
        assert IsReadyCondition(cs[i + 1]);
      }
      if exists i :: 0 <= i < |cs| && IsReadyCondition(cs[i]) {
        var i :| 0 <= i < |cs| && IsReadyCondition(cs[i]);
        if i > 0 {
          assert IsReadyCondition(cs[1..][i - 1]);
        }
      }
    }
  }

  // ---------------------------------------------------------------- nodes

  /** A node entry the program reads without raising: metadata.name (a
      string) and a list status.conditions whose conditions are readable up
      to the first Ready one. */
  predicate NodeOk(node: Json) {
    && Has(node, "metadata") && Has(node.fields["metadata"], "name")
    && node.fields["metadata"].fields["name"].JString?
    && Has(node, "status") && Has(node.fields["status"], "conditions")
    && node.fields["status"].fields["conditions"].JArray?
    && ConditionsEvaluable(node.fields["status"].fields["conditions"].items)
  }

  function NodeName(node: Json): (name: string)
    requires NodeOk(node)
    ensures Path(node, ["metadata", "name"]) == Some(JString(name))
  {
    node.fields["metadata"].fields["name"].s
  }

  function Conditions(node: Json): (cs: seq<Json>)
    requires NodeOk(node)
    ensures Path(node, ["status", "conditions"]) == Some(JArray(cs))
  {
    node.fields["status"].fields["conditions"].items
  }

  /** A node is Ready exactly when one of its conditions has type "Ready"
      and status "True". */
  function NodeIsReady(node: Json): (ready: bool)
    requires NodeOk(node)
    ensures ready <==> exists i :: 0 <= i < |Conditions(node)| && IsReadyCondition(Conditions(node)[i])
  {
    AnyReadyIff(Conditions(node));
    AnyReady(Conditions(node))
  }

  /** `• name: Ready` or `• name: NotReady`. */
  function NodeLine(node: Json): string
    requires NodeOk(node)
  {
    "\U{2022} " + NodeName(node) + ": " + (if NodeIsReady(node) then "Ready" else "NotReady")
  }

  /** A node's line reads "Ready" exactly when one of its conditions has
      type "Ready" and status "True", and "NotReady" exactly when none has. */
  lemma NodeLineReadyIff(node: Json)
    requires NodeOk(node)
    ensures NodeLine(node) == "\U{2022} " + NodeName(node) + ": Ready"
            <==> exists i :: 0 <= i < |Conditions(node)| && IsReadyCondition(Conditions(node)[i])
    ensures NodeLine(node) == "\U{2022} " + NodeName(node) + ": NotReady"
            <==> !exists i :: 0 <= i < |Conditions(node)| && IsReadyCondition(Conditions(node)[i])
  {
    var prefix := "\U{2022} " + NodeName(node) + ": ";
    assert |prefix + "Ready"| != |prefix + "NotReady"|;
  }

  /** A node listed with the single condition Ready/True is reported Ready. */
  lemma ReadyNodeExample(name: string)
    ensures var node := JObject(map[
              "metadata" := JObject(map["name" := JString(name)]),
              "status" := JObject(map["conditions" := JArray([
                JObject(map["type" := JString("Ready"), "status" := JString("True")])])])]);
            NodeOk(node) && NodeIsReady(node) && NodeLine(node) == "\U{2022} " + name + ": Ready"
  {
    var c := JObject(map["type" := JString("Ready"), "status" := JString("True")]);
    assert IsReadyCondition(c);
  }

  // --------------------------------------------------------------- report

  /** What the program demands of the node query: on success the data is a
      dictionary, and a truthy "items" in it is a list of readable nodes. */
  predicate NodesInputOk(nodes: CommandResult) {
    nodes.Success? ==>
      && nodes.data.JObject?
      && (HasItems(nodes.data) ==>
            && nodes.data.fields["items"].JArray?
            && forall k :: 0 <= k < |nodes.data.fields["items"].items| ==> NodeOk(nodes.data.fields["items"].items[k]))
  }

  /** What the program demands once cluster-info succeeded: its data is text
      (it is joined into the reply) and the node query is readable. */
  predicate StatusInputOk(cluster: CommandResult, nodes: CommandResult) {
    cluster.Success? ==> cluster.data.JString? && NodesInputOk(nodes)
  }

  /** The node query answered with at least one node. */
  predicate NodesListed(nodes: CommandResult) {
    nodes.Success? && HasItems(nodes.data)
  }

  /** The lines after the cluster-info text: a header and one line per node,
      or the single fallback line. */
  function NodeSection(nodes: CommandResult): (lines: seq<string>)
    requires NodesInputOk(nodes)
    ensures !NodesListed(nodes) ==> lines == [NoNodeInfo]
    ensures NodesListed(nodes) ==>
              && |lines| == 1 + |ItemsOf(nodes.data)|
              && lines[0] == NodeHeader
              && forall k :: 0 <= k < |ItemsOf(nodes.data)| ==> lines[k + 1] == NodeLine(ItemsOf(nodes.data)[k])
  {
    if NodesListed(nodes) then
      var items := ItemsOf(nodes.data);
      [NodeHeader] + seq(|items|, k requires 0 <= k < |items| => NodeLine(items[k]))
    else [NoNodeInfo]
  }

  /** get_cluster_status(), given the result of cluster-info and the result
      the node query would give. When cluster-info fails the reply is its
      error alone and the node query is never issued. */
  function GetClusterStatus(cluster: CommandResult, nodes: CommandResult): (r: Reply)
    requires StatusInputOk(cluster, nodes)
    ensures cluster.Failure? ==> r == Reply(ClusterErrorMessage(cluster.error), [ClusterInfoCommand])
    ensures cluster.Success? ==> r.issued == [ClusterInfoCommand, NodesCommand]
  {
    if cluster.Failure? then Reply(ClusterErrorMessage(cluster.error), [ClusterInfoCommand])
    else
      Reply(Text.Join([Title, "", cluster.data.s, ""] + NodeSection(nodes), '\n'),
            [ClusterInfoCommand, NodesCommand])
  }

  /** Once cluster-info succeeded, its text appears in the reply. */
  lemma ClusterInfoShown(cluster: CommandResult, nodes: CommandResult)
    requires StatusInputOk(cluster, nodes) && cluster.Success?
    ensures Text.Contains(GetClusterStatus(cluster, nodes).text, cluster.data.s)
  {
    var parts := [Title, "", cluster.data.s, ""] + NodeSection(nodes);
    assert parts[2] == cluster.data.s;
    Text.JoinShowsPart(parts, 2, '\n');
  }

  /** A node line breaks no line when the node name does not. */
  lemma NodeLineHasNoNewline(node: Json)
    requires NodeOk(node) && '\n' !in NodeName(node)
    ensures '\n' !in NodeLine(node)
  {
  }

  /** No listed node's name holds a line break. */
  predicate NamesUnbroken(nodes: CommandResult)
    requires NodesInputOk(nodes)
  {
    NodesListed(nodes) ==>
      forall k :: 0 <= k < |ItemsOf(nodes.data)| ==> '\n' !in NodeName(ItemsOf(nodes.data)[k])
  }

  /** No line holds a line break. */
  predicate LinesUnbroken(lines: seq<string>) {
    forall k :: 0 <= k < |lines| ==> '\n' !in lines[k]
  }

  /** No line of the node section breaks, when no node name does. */
  lemma NodeSectionHasNoNewline(nodes: CommandResult)
    requires NodesInputOk(nodes)
    requires NamesUnbroken(nodes)
    ensures LinesUnbroken(NodeSection(nodes))
  {
    var section := NodeSection(nodes);
    forall k | 0 <= k < |section|
      ensures '\n' !in section[k]
    {
      if NodesListed(nodes) && k > 0 {
        NodeLineHasNoNewline(ItemsOf(nodes.data)[k - 1]);
      }
    }
  }

  /** The reply's last lines are the node section: the fallback line alone
      when the node query failed or listed nothing, otherwise the node header
      and one line per node in item order (node names holding no line
      break). */
  lemma NodeSectionLines(cluster: CommandResult, nodes: CommandResult)
    requires StatusInputOk(cluster, nodes) && cluster.Success?
    requires NamesUnbroken(nodes)
    ensures var lines := Text.Split(GetClusterStatus(cluster, nodes).text, '\n');
            && |lines| >= |NodeSection(nodes)| + 1
            && lines[|lines| - |NodeSection(nodes)|..] == NodeSection(nodes)
  {
    NodeSectionHasNoNewline(nodes);
    ReportEndsWith(GetClusterStatus(cluster, nodes).text, [Title, "", cluster.data.s, ""], NodeSection(nodes));
    assert EndsWithLines(GetClusterStatus(cluster, nodes).text, NodeSection(nodes));
  }

  /** Split at line breaks, the text ends with the given lines, preceded by
      at least one more. */
  predicate EndsWithLines(text: string, section: seq<string>) {
    var lines := Text.Split(text, '\n');
    |lines| >= |section| + 1 && lines[|lines| - |section|..] == section
  }

  /** A report joined from some leading lines and a section whose lines
      hold no break splits into lines ending with that section. */
  lemma ReportEndsWith(report: string, head: seq<string>, section: seq<string>)
    requires report == Text.Join(head + section, '\n')
    requires |head| >= 1 && |section| >= 1
    requires LinesUnbroken(section)
    ensures EndsWithLines(report, section)
  {
    Text.SplitJoinSuffix(head, section, '\n');
  }

  /** When the node query failed or listed nothing, the reply ends with the
      single fallback line. */
  lemma FallbackIsLastLine(cluster: CommandResult, nodes: CommandResult)
    requires StatusInputOk(cluster, nodes) && cluster.Success? && !NodesListed(nodes)
    ensures var lines := Text.Split(GetClusterStatus(cluster, nodes).text, '\n');
            lines[|lines| - 1] == NoNodeInfo
  {
    NodeSectionLines(cluster, nodes);
  }

  /** The reply ends with the fallback line exactly when the node query
      failed or listed nothing (node names holding no line break). */
  lemma FallbackIff(cluster: CommandResult, nodes: CommandResult)
    requires StatusInputOk(cluster, nodes) && cluster.Success?
    requires NamesUnbroken(nodes)
    ensures var lines := Text.Split(GetClusterStatus(cluster, nodes).text, '\n');
            lines[|lines| - 1] == NoNodeInfo <==> !NodesListed(nodes)
  {
    NodeSectionLines(cluster, nodes);
    if NodesListed(nodes) {
      var items := ItemsOf(nodes.data);
      var section := NodeSection(nodes);
      var lines := Text.Split(GetClusterStatus(cluster, nodes).text, '\n');
      assert lines[|lines| - 1] == section[|section| - 1];
      assert section[|section| - 1] == NodeLine(items[|items| - 1]);
      assert NodeLine(items[|items| - 1])[0] == '\U{2022}' != NoNodeInfo[0];
    }
  }
}
