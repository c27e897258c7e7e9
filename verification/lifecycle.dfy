/** create_simple_pod and delete_pod_by_name (k8s_tools.py:77-120): the pod
    manifest, the kubectl call each makes and the reply each picks. */
module PodLifecycle {
  import opened Wrappers
  import opened JsonModel
  import opened Runner
  import Text

  /** The port list entry exposing port 80. */
  const Port80: Json := JObject(map["containerPort" := JInt(80)])

  /** The image-name heuristic: `"nginx" in image.lower()`. */
  predicate LooksLikeNginx(image: string) {
    Text.Contains(Text.Lower(image), "nginx")
  }

  /** The one container of the manifest. */
  function Container(name: string, image: string): (c: Json)
    ensures Get(c, "name") == Some(JString(name))
    ensures Get(c, "image") == Some(JString(image))
    ensures Get(c, "ports") == Some(JArray(if LooksLikeNginx(image) then [Port80] else []))
  {
    JObject(map[
      "name" := JString(name),
      "image" := JString(image),
      "ports" := JArray(if LooksLikeNginx(image) then [Port80] else [])])
  }

  /** The manifest's fixed labels. */
  function Labels(): (l: Json)
    ensures Get(l, "created-by") == Some(JString("mcp-server"))
    ensures Get(l, "demo") == Some(JString("true"))
  {
    JObject(map["created-by" := JString("mcp-server"), "demo" := JString("true")])
  }

  /** The manifest's "metadata": name, namespace and the two fixed labels. */
  function Metadata(name: string, namespace: string): (md: Json)
    ensures Get(md, "name") == Some(JString(name))
    ensures Get(md, "namespace") == Some(JString(namespace))
    ensures Get(md, "labels") == Some(Labels())
  {
    JObject(map["name" := JString(name), "namespace" := JString(namespace), "labels" := Labels()])
  }

  /** The manifest's "spec": the single container, never restarted. */
  function Spec(name: string, image: string): (sp: Json)
    ensures Get(sp, "containers") == Some(JArray([Container(name, image)]))
    ensures Get(sp, "restartPolicy") == Some(JString("Never"))
  {
    JObject(map["containers" := JArray([Container(name, image)]), "restartPolicy" := JString("Never")])
  }

  /** The pod manifest written to the temporary file. */
  function Manifest(name: string, image: string, namespace: string): (m: Json)
    ensures Get(m, "metadata") == Some(Metadata(name, namespace))
    ensures Get(m, "spec") == Some(Spec(name, image))
  {
    var fields := map[
      "apiVersion" := JString("v1"),
      "kind" := JString("Pod"),
      "metadata" := Metadata(name, namespace),
      "spec" := Spec(name, image)];
    JObject(fields)
  }

  /** The manifest describes a v1 Pod with the requested name and namespace,
      labelled as created by the server, never restarted. */
  lemma ManifestMetadata(name: string, image: string, namespace: string)
    ensures var m := Manifest(name, image, namespace);
            && Path(m, ["apiVersion"]) == Some(JString("v1"))
            && Path(m, ["kind"]) == Some(JString("Pod"))
            && Path(m, ["metadata", "name"]) == Some(JString(name))
            && Path(m, ["metadata", "namespace"]) == Some(JString(namespace))
            && Path(m, ["metadata", "labels", "created-by"]) == Some(JString("mcp-server"))
            && Path(m, ["metadata", "labels", "demo"]) == Some(JString("true"))
            && Path(m, ["spec", "restartPolicy"]) == Some(JString("Never"))
  {
    var m := Manifest(name, image, namespace);
    var md := Metadata(name, namespace);
    PathOne(m, "apiVersion");
    PathOne(m, "kind");
    PathTwo(m, "metadata", "name");
    PathTwo(m, "metadata", "namespace");
    PathThree(m, "metadata", "labels", "created-by");
    PathTwo(md, "labels", "created-by");
    PathThree(m, "metadata", "labels", "demo");
    PathTwo(md, "labels", "demo");
    PathTwo(m, "spec", "restartPolicy");
  }

  /** The manifest has exactly one container, named after the pod and running
      the given image; it exposes port 80, and nothing else, exactly when
      "nginx" occurs in the lower-cased image name, and no port otherwise. */
  lemma ManifestContainer(name: string, image: string, namespace: string)
    ensures var cs := Path(Manifest(name, image, namespace), ["spec", "containers"]);
            && cs.Some? && cs.value.JArray? && |cs.value.items| == 1
            && Path(cs.value.items[0], ["name"]) == Some(JString(name))
            && Path(cs.value.items[0], ["image"]) == Some(JString(image))
            && ((Path(cs.value.items[0], ["ports"]) == Some(JArray([Port80])))
                <==> (exists i :: Text.OccursAt("nginx", Text.Lower(image), i)))
            && ((Path(cs.value.items[0], ["ports"]) == Some(JArray([])))
                <==> !(exists i :: Text.OccursAt("nginx", Text.Lower(image), i)))
  {
    var c := Container(name, image);
    PathTwo(Manifest(name, image, namespace), "spec", "containers");
    PathOne(c, "name");
    PathOne(c, "image");
    PathOne(c, "ports");
    Text.ContainsIff(Text.Lower(image), "nginx");
  }

  /** The image "nginx:latest" gets port 80. */
  lemma NginxImageGetsPort()
    ensures LooksLikeNginx("nginx:latest")
  {
    var low := Text.Lower("nginx:latest");
    assert low[..5] == "nginx";
  }

  /** The image "busybox" gets no port. */
  lemma BusyboxImageGetsNoPort()
    ensures !LooksLikeNginx("busybox")
  {
    var b := Text.Lower("busybox");
    assert b == "busybox";
    assert b[1..] == "usybox" && b[2..] == "sybox" && "sybox"[1..] == "ybox";
    assert "sybox"[0] != "nginx"[0] && "usybox"[0] != "nginx"[0] && b[0] != "nginx"[0];
    assert !Text.Contains("sybox", "nginx");
    assert !Text.Contains("usybox", "nginx");
  }

  /** The arguments create_simple_pod runs kubectl with; manifestPath is
      the temporary file holding the manifest. */
  function ApplyCommand(manifestPath: string): seq<string> {
    ["apply", "-f", manifestPath]
  }

  function CreatedMessage(name: string, image: string, namespace: string): string {
    "\U{2705} Pod '" + name + "' created successfully in namespace '" + namespace + "' with image '" + image + "'"
  }

  function CreateFailedMessage(error: string): string {
    "\U{274C} Failed to create pod: " + error
  }

  /** One run of create_simple_pod: the reply, and the manifest written to
      the temporary file that `kubectl apply -f` is given. */
  datatype CreateRun = CreateRun(reply: Reply, written: Json)

  /** create_simple_pod(name, image, namespace), given the path of the
      temporary file and the result of applying it: the manifest for the
      requested pod is written, one kubectl call applies that file, and the
      reply reports success exactly when the apply succeeded, carrying
      kubectl's error unchanged when it did not. */
  function CreateSimplePod(name: string, image: string, namespace: string, manifestPath: string,
                           applied: CommandResult): (r: CreateRun)
    ensures r.written == Manifest(name, image, namespace)
    ensures r.reply.issued == [ApplyCommand(manifestPath)]
    ensures |r.reply.text| > 0 && (r.reply.text[0] == '\U{2705}' <==> applied.Success?)
    ensures applied.Success? ==> r.reply.text == CreatedMessage(name, image, namespace)
    ensures applied.Failure? ==> r.reply.text == CreateFailedMessage(applied.error)
  {
    var written := Manifest(name, image, namespace);
    var issued := [ApplyCommand(manifestPath)];
    if applied.Success? then CreateRun(Reply(CreatedMessage(name, image, namespace), issued), written)
    else CreateRun(Reply(CreateFailedMessage(applied.error), issued), written)
  }

  /** What create_simple_pod submits is the requested pod: a v1 Pod with the
      given name and namespace, never restarted, whose single container runs
      the given image and exposes port 80 exactly when "nginx" occurs in the
      lower-cased image name. */
  lemma CreateSubmitsRequestedPod(name: string, image: string, namespace: string, manifestPath: string,
                                  applied: CommandResult)
    ensures var m := CreateSimplePod(name, image, namespace, manifestPath, applied).written;
            var cs := Path(m, ["spec", "containers"]);
            && Path(m, ["kind"]) == Some(JString("Pod"))
            && Path(m, ["metadata", "name"]) == Some(JString(name))
            && Path(m, ["metadata", "namespace"]) == Some(JString(namespace))
            && Path(m, ["spec", "restartPolicy"]) == Some(JString("Never"))
            && cs.Some? && cs.value.JArray? && |cs.value.items| == 1
            && Path(cs.value.items[0], ["image"]) == Some(JString(image))
            && ((Path(cs.value.items[0], ["ports"]) == Some(JArray([Port80])))
                <==> (exists i :: Text.OccursAt("nginx", Text.Lower(image), i)))
  {
    ManifestMetadata(name, image, namespace);
    ManifestContainer(name, image, namespace);
  }

  /** The arguments delete_pod_by_name runs kubectl with. */
  function DeleteCommand(name: string, namespace: string): seq<string> {
    ["delete", "pod", name, "-n", namespace]
  }

  function DeletedMessage(name: string, namespace: string): string {
    "\U{2705} Pod '" + name + "' deleted successfully from namespace '" + namespace + "'"
  }

  function DeleteFailedMessage(error: string): string {
    "\U{274C} Failed to delete pod: " + error
  }

  /** delete_pod_by_name(name, namespace), given the result of the delete: one
      kubectl call, and a reply that reports success exactly when the delete
      succeeded, carrying kubectl's error unchanged when it did not. */
  function DeletePodByName(name: string, namespace: string, result: CommandResult): (r: Reply)
    ensures r.issued == [DeleteCommand(name, namespace)]
    ensures |r.text| > 0 && (r.text[0] == '\U{2705}' <==> result.Success?)
    ensures result.Success? ==> r.text == DeletedMessage(name, namespace)
    ensures result.Failure? ==> r.text == DeleteFailedMessage(result.error)
  {
    var issued := [DeleteCommand(name, namespace)];
    if result.Success? then Reply(DeletedMessage(name, namespace), issued)
    else Reply(DeleteFailedMessage(result.error), issued)
  }
}
