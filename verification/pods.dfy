/** get_pods_info: the pod table built from `kubectl get pods -n <ns> -o json`
    (k8s_tools.py:42-74). */
module PodListing {
  import opened Wrappers
  import opened JsonModel
  import opened Runner
  import Text
  import Config

  /** The arguments the listing runs kubectl with. */
  function PodsCommand(namespace: string): seq<string> {
    ["get", "pods", "-n", namespace, "-o", "json"]
  }

  // ---------------------------------------------------- container statuses

  /** A container status the program can read: a dictionary whose
      "restartCount", when present, is a number Python's sum() accepts. */
  predicate ContainerStatusOk(c: Json) {
    && c.JObject?
    && (Has(c, "restartCount") ==> c.fields["restartCount"].JInt? || c.fields["restartCount"].JBool?)
  }

  /** `c.get("ready", False)` taken as a condition. */
  predicate ContainerReady(c: Json) {
    Has(c, "ready") && Truthy(c.fields["ready"])
  }

  /** `c.get("restartCount", 0)` as sum() adds it: absent is 0, a boolean
      adds as 0 or 1. */
  function RestartsOf(c: Json): int {
    if !Has(c, "restartCount") then 0
    else match c.fields["restartCount"]
      case JInt(n) => n
      case JBool(b) => if b then 1 else 0
      case _ => 0
  }

  /** Number of containers counted as ready. */
  function ReadyCount(cs: seq<Json>): (n: nat)
    ensures n <= |cs|
  {
    if |cs| == 0 then 0
    else (if ContainerReady(cs[0]) then 1 else 0) + ReadyCount(cs[1..])
  }

  /** Sum of the restart counters, absent ones adding nothing. */
  function RestartSum(cs: seq<Json>): int {
    if |cs| == 0 then 0 else RestartsOf(cs[0]) + RestartSum(cs[1..])
  }

  /** Every container is ready exactly when the ready count reaches the
      total. */
  lemma {:induction false} ReadyCountAllIff(cs: seq<Json>)
    ensures ReadyCount(cs) == |cs| <==> forall k :: 0 <= k < |cs| ==> ContainerReady(cs[k])
  {
    if |cs| > 0 {
      ReadyCountAllIff(cs[1..]);
      assert forall k :: 1 <= k < |cs| ==> cs[k] == cs[1..][k - 1];
    }
  }

  /** No container is ready exactly when the ready count is zero. */
  lemma {:induction false} ReadyCountNoneIff(cs: seq<Json>)
    ensures ReadyCount(cs) == 0 <==> forall k :: 0 <= k < |cs| ==> !ContainerReady(cs[k])
  {
    if |cs| > 0 {
      ReadyCountNoneIff(cs[1..]);
      assert forall k :: 1 <= k < |cs| ==> cs[k] == cs[1..][k - 1];
    }
  }

  /** The restart sum is additive over a split of the container list. */
  lemma {:induction false} RestartSumAppend(a: seq<Json>, b: seq<Json>)
    ensures RestartSum(a + b) == RestartSum(a) + RestartSum(b)
  {
    if |a| > 0 {
      assert (a + b)[1..] == a[1..] + b;
      RestartSumAppend(a[1..], b);
    } else {
      assert a + b == b;
    }
  }

  /** Containers that report no restart counter add nothing. */
  lemma {:induction false} RestartSumOfUncounted(cs: seq<Json>)
    requires forall k :: 0 <= k < |cs| ==> !Has(cs[k], "restartCount")
    ensures RestartSum(cs) == 0
  {
    if |cs| > 0 {
      assert forall k :: 0 <= k < |cs[1..]| ==> cs[1..][k] == cs[k + 1];
      RestartSumOfUncounted(cs[1..]);
    }
  }

  // ----------------------------------------------------------------- pods

  /** A pod entry the program reads without raising: a dictionary with
      metadata.name and status.phase, and, when status holds
      "containerStatuses", a list of readable container statuses. Names and
      phases are JSON strings. */
  predicate PodOk(pod: Json) {
    && Has(pod, "metadata") && Has(pod.fields["metadata"], "name")
    && pod.fields["metadata"].fields["name"].JString?
    && Has(pod, "status") && Has(pod.fields["status"], "phase")
    && pod.fields["status"].fields["phase"].JString?
    && (Has(pod.fields["status"], "containerStatuses") ==>
          && pod.fields["status"].fields["containerStatuses"].JArray?
          && forall k :: 0 <= k < |pod.fields["status"].fields["containerStatuses"].items| ==>
               ContainerStatusOk(pod.fields["status"].fields["containerStatuses"].items[k]))
  }

  /** Ready and total container counts of a pod. */
  datatype ContainerTally = ContainerTally(ready: nat, total: nat)

  /** What one line of the table says about one pod; containers is None when
      the pod reports no container statuses. */
  datatype PodSummary = PodSummary(name: string, phase: string, containers: Option<ContainerTally>, restarts: int)

  /** The container statuses of a readable pod. */
  function ContainerStatuses(pod: Json): seq<Json>
    requires PodOk(pod)
  {
    if Has(pod.fields["status"], "containerStatuses") then pod.fields["status"].fields["containerStatuses"].items
    else []
  }

  /** Reads the name, phase, counts and restarts of one pod. */
  function Summarise(pod: Json): (p: PodSummary)
    requires PodOk(pod)
    ensures Path(pod, ["metadata", "name"]) == Some(JString(p.name))
    ensures Path(pod, ["status", "phase"]) == Some(JString(p.phase))
    ensures p.containers.Some? <==> Has(pod.fields["status"], "containerStatuses")
    ensures p.containers.Some? ==>
              && p.containers.value.total == |ContainerStatuses(pod)|
              && p.containers.value.ready == ReadyCount(ContainerStatuses(pod))
              && p.containers.value.ready <= p.containers.value.total
    ensures p.restarts == RestartSum(ContainerStatuses(pod))
    ensures p.containers.None? ==> p.restarts == 0
  {
    var status := pod.fields["status"];
    var cs := ContainerStatuses(pod);
    PodSummary(
      pod.fields["metadata"].fields["name"].s,
      status.fields["phase"].s,
      if Has(status, "containerStatuses") then Some(ContainerTally(ReadyCount(cs), |cs|)) else None,
      RestartSum(cs))
  }

  /** "r/t", or "Unknown" when container statuses are absent. */
  function ReadyText(t: Option<ContainerTally>): string {
    match t
    case None => "Unknown"
    case Some(c) => Text.IntToString(c.ready) + "/" + Text.IntToString(c.total)
  }

  /** One table line: `• name: phase (Ready: r, Restarts: n)`. */
  function PodLine(p: PodSummary): string {
    "\U{2022} " + p.name + ": " + p.phase + " (Ready: " + ReadyText(p.containers)
      + ", Restarts: " + Text.IntToString(p.restarts) + ")"
  }

  /** First line of a non-empty listing. */
  function Header(namespace: string): string {
    "\U{1F4CB} Pods in namespace '" + namespace + "':"
  }

  /** Reply when the listing holds no pods. */
  function NoPodsMessage(namespace: string): string {
    "No pods found in namespace '" + namespace + "'"
  }

  /** Reply when kubectl failed. */
  function ErrorMessage(error: string): string {
    "\U{274C} Error: " + error
  }

  /** What the program demands of the runner's result: on success the data
      is a dictionary, and a truthy "items" in it is a list of readable
      pods. */
  predicate ListingInputOk(result: CommandResult) {
    result.Success? ==>
      && result.data.JObject?
      && (HasItems(result.data) ==>
            && result.data.fields["items"].JArray?
            && forall k :: 0 <= k < |result.data.fields["items"].items| ==> PodOk(result.data.fields["items"].items[k]))
  }

  /** The table lines, one per pod in item order. */
  function PodLines(items: seq<Json>): (lines: seq<string>)
    requires forall k :: 0 <= k < |items| ==> PodOk(items[k])
    ensures |lines| == |items|
    ensures forall k :: 0 <= k < |items| ==> lines[k] == PodLine(Summarise(items[k]))
  {
    seq(|items|, k requires 0 <= k < |items| => PodLine(Summarise(items[k])))
  }

  /** Restart counts 1 and 2 add to 3; one of the two containers is
      ready. */
  lemma ExampleCounts(c1: Json, c2: Json)
    requires c1 == JObject(map["ready" := JBool(true), "restartCount" := JInt(1)])
    requires c2 == JObject(map["ready" := JBool(false), "restartCount" := JInt(2)])
    ensures ReadyCount([c1, c2]) == 1 && RestartSum([c1, c2]) == 3
  {
    assert [c1, c2][1..] == [c2] && [c2][1..] == [];
    assert RestartsOf(c1) == 1 && RestartsOf(c2) == 2;
    assert ContainerReady(c1) && !ContainerReady(c2);
    assert RestartSum([c2]) == RestartsOf(c2) + RestartSum([]);
    assert RestartSum([c1, c2]) == RestartsOf(c1) + RestartSum([c2]);
  }

  /** The example pod below is readable and summarised as named "p",
      running, one of two containers ready, three restarts. */
  lemma ExampleSummary(c1: Json, c2: Json, pod: Json)
    requires c1 == JObject(map["ready" := JBool(true), "restartCount" := JInt(1)])
    requires c2 == JObject(map["ready" := JBool(false), "restartCount" := JInt(2)])
    requires pod == JObject(map[
               "metadata" := JObject(map["name" := JString("p")]),
               "status" := JObject(map["phase" := JString("Running"), "containerStatuses" := JArray([c1, c2])])])
    ensures PodOk(pod) && Summarise(pod) == PodSummary("p", "Running", Some(ContainerTally(1, 2)), 3)
  {
    ExampleCounts(c1, c2);
    assert ContainerStatusOk(c1) && ContainerStatusOk(c2);
    assert PodOk(pod);
    assert ContainerStatuses(pod) == [c1, c2];
  }

  /** A running pod with two containers, restarted once and twice, one of
      them ready, is listed as `• p: Running (Ready: 1/2, Restarts: 3)`. */
  lemma RestartSumExample()
    ensures var pod := JObject(map[
              "metadata" := JObject(map["name" := JString("p")]),
              "status" := JObject(map[
                "phase" := JString("Running"),
                "containerStatuses" := JArray([
                  JObject(map["ready" := JBool(true), "restartCount" := JInt(1)]),
                  JObject(map["ready" := JBool(false), "restartCount" := JInt(2)])])])]);
            PodOk(pod) && PodLine(Summarise(pod)) == "\U{2022} p: Running (Ready: 1/2, Restarts: 3)"
  {
    var c1 := JObject(map["ready" := JBool(true), "restartCount" := JInt(1)]);
    var c2 := JObject(map["ready" := JBool(false), "restartCount" := JInt(2)]);
    var pod := JObject(map[
      "metadata" := JObject(map["name" := JString("p")]),
      "status" := JObject(map["phase" := JString("Running"), "containerStatuses" := JArray([c1, c2])])]);
    ExampleSummary(c1, c2, pod);
    ExampleLine();
  }

  /** The example summary renders as its table line. */
  lemma ExampleLine()
    ensures PodLine(PodSummary("p", "Running", Some(ContainerTally(1, 2)), 3))
            == "\U{2022} p: Running (Ready: 1/2, Restarts: 3)"
  {
    ExampleLinePieces();
    ExampleLineText();
  }

  /** The pieces the example line is made of. */
  lemma ExampleLinePieces()
    ensures PodLine(PodSummary("p", "Running", Some(ContainerTally(1, 2)), 3))
            == "\U{2022} " + "p" + ": " + "Running" + " (Ready: " + "1/2" + ", Restarts: " + "3" + ")"
  {
    assert Text.IntToString(1) == "1" && Text.IntToString(2) == "2";
    assert ReadyText(Some(ContainerTally(1, 2))) == "1/2";
    assert Text.IntToString(3) == "3";
  }

  /** The pieces of the example line, put together. */
  lemma ExampleLineText()
    ensures "\U{2022} " + "p" + ": " + "Running" + " (Ready: " + "1/2" + ", Restarts: " + "3" + ")"
            == "\U{2022} p: Running (Ready: 1/2, Restarts: 3)"
  {
    assert "\U{2022} " + "p" + ": " == "\U{2022} p: ";
    assert "\U{2022} p: " + "Running" == "\U{2022} p: Running";
    assert "\U{2022} p: Running" + " (Ready: " == "\U{2022} p: Running (Ready: ";
    assert "\U{2022} p: Running (Ready: " + "1/2" == "\U{2022} p: Running (Ready: 1/2";
    assert "\U{2022} p: Running (Ready: 1/2" + ", Restarts: " == "\U{2022} p: Running (Ready: 1/2, Restarts: ";
    assert "\U{2022} p: Running (Ready: 1/2, Restarts: " + "3" + ")" == "\U{2022} p: Running (Ready: 1/2, Restarts: 3)";
  }


  /** A pod reporting no container statuses is listed with unknown readiness
      and no restarts. */
  lemma UnknownReadinessExample()
    ensures var pod := JObject(map[
              "metadata" := JObject(map["name" := JString("p")]),
              "status" := JObject(map["phase" := JString("Pending")])]);
            PodOk(pod) && PodLine(Summarise(pod)) == "\U{2022} p: Pending (Ready: Unknown, Restarts: 0)"
  {
    var pod := JObject(map[
      "metadata" := JObject(map["name" := JString("p")]),
      "status" := JObject(map["phase" := JString("Pending")])]);
    assert PodOk(pod);
    assert Summarise(pod) == PodSummary("p", "Pending", None, 0);
    assert Text.IntToString(0) == "0";
    assert PodLine(PodSummary("p", "Pending", None, 0))
           == "\U{2022} " + "p" + ": " + "Pending" + " (Ready: " + "Unknown" + ", Restarts: " + "0" + ")";
    assert "\U{2022} " + "p" + ": " == "\U{2022} p: ";
    assert "\U{2022} p: " + "Pending" == "\U{2022} p: Pending";
    assert "\U{2022} p: Pending" + " (Ready: " == "\U{2022} p: Pending (Ready: ";
    assert "\U{2022} p: Pending (Ready: " + "Unknown" == "\U{2022} p: Pending (Ready: Unknown";
    assert "\U{2022} p: Pending (Ready: Unknown" + ", Restarts: " == "\U{2022} p: Pending (Ready: Unknown, Restarts: ";
    assert "\U{2022} p: Pending (Ready: Unknown, Restarts: " + "0" + ")" == "\U{2022} p: Pending (Ready: Unknown, Restarts: 0)";
  }

  /** get_pods_info(namespace), given the result of the one kubectl call it
      makes. */
  function GetPodsInfo(namespace: string, result: CommandResult): (r: Reply)
    requires ListingInputOk(result)
    ensures r.issued == [PodsCommand(namespace)]
    ensures result.Failure? ==> r.text == ErrorMessage(result.error)
  {
    var issued := [PodsCommand(namespace)];
    if result.Failure? then Reply(ErrorMessage(result.error), issued)
    else if !HasItems(result.data) then Reply(NoPodsMessage(namespace), issued)
    else Reply(Header(namespace) + "\n" + Text.Join(PodLines(ItemsOf(result.data)), '\n'), issued)
  }

  /** The "no pods" reply comes exactly from a successful call whose "items"
      is missing or falsy (null, false, 0, an empty list, dictionary or
      string), never from a failure or a truthy "items". */
  lemma NoPodsIff(namespace: string, result: CommandResult)
    requires ListingInputOk(result)
    ensures GetPodsInfo(namespace, result).text == NoPodsMessage(namespace)
            <==> result.Success? && !HasItems(result.data)
  {
    var text := GetPodsInfo(namespace, result).text;
    if result.Failure? {
      assert text[0] == '\U{274C}' != NoPodsMessage(namespace)[0];
    } else if HasItems(result.data) {
      assert text[0] == '\U{1F4CB}' != NoPodsMessage(namespace)[0];
    }
  }

  /** An empty pod list in the default namespace gives the fixed reply. */
  lemma EmptyDefaultNamespace()
    ensures GetPodsInfo(Config.DefaultNamespace, Success(JObject(map["items" := JArray([])]))).text
            == "No pods found in namespace 'default'"
  {
  }

  /** A pod line breaks no line when the name and phase do not. */
  lemma PodLineHasNoNewline(p: PodSummary)
    requires '\n' !in p.name && '\n' !in p.phase
    ensures '\n' !in PodLine(p)
  {
    var ready := ReadyText(p.containers);
    assert '\n' !in ready by {
      if p.containers.Some? {
        Text.IntToStringHasNoNewline(p.containers.value.ready);
        Text.IntToStringHasNoNewline(p.containers.value.total);
      }
    }
    var restarts := Text.IntToString(p.restarts);
    Text.IntToStringHasNoNewline(p.restarts);
    assert PodLine(p) == "\U{2022} " + p.name + ": " + p.phase + " (Ready: " + ready + ", Restarts: " + restarts + ")";
  }

  /** A pod listing is the header followed by exactly one line per item, in
      item order (names, phases and the namespace holding no line break). */
  lemma ListingLines(namespace: string, result: CommandResult)
    requires ListingInputOk(result)
    requires result.Success? && HasItems(result.data)
    requires '\n' !in namespace
    requires forall k :: 0 <= k < |ItemsOf(result.data)| ==>
               '\n' !in Summarise(ItemsOf(result.data)[k]).name
               && '\n' !in Summarise(ItemsOf(result.data)[k]).phase
    ensures var lines := Text.Split(GetPodsInfo(namespace, result).text, '\n');
            && |lines| == 1 + |ItemsOf(result.data)|
            && lines[0] == Header(namespace)
            && forall k :: 0 <= k < |ItemsOf(result.data)| ==>
                 lines[k + 1] == PodLine(Summarise(ItemsOf(result.data)[k]))
  {
    var items := ItemsOf(result.data);
    var body := PodLines(items);
    forall k | 0 <= k < |body|
      ensures '\n' !in body[k]
    {
      PodLineHasNoNewline(Summarise(items[k]));
    }
    Text.SplitHeaderAndLines(Header(namespace), body, '\n');
  }
}
