# Kubernetes tools core, modelled in Dafny

The MCP Kubernetes server answers four tools by running `kubectl` and turning
what it prints into text. The model covers the logic of `k8s_tools.py`:

- `run_kubectl` turns the outcome of one kubectl process into a uniform
  result: success with decoded JSON (or the raw text), or failure with an
  error message (`Runner`).
- `get_pods_info` builds the pod table, with ready/total counts and restart
  sums per pod (`PodListing`).
- `create_simple_pod` builds the pod manifest, including the nginx port rule,
  and picks the reply; the model returns the manifest written alongside the
  reply (`PodLifecycle`).
- `delete_pod_by_name` picks the reply (`PodLifecycle`).
- `get_cluster_status` stops early when `cluster-info` fails, decides whether
  each node is Ready, and falls back when node data is missing
  (`ClusterStatus`).

The external process is an input. `ProcessOutcome` is either "exited with
code c, stdout s, stderr e" or "raised with message m". Every kubectl call a
tool makes appears as a `CommandResult` parameter. Each tool's answer holds
a `Reply`: the text it hands back and the kubectl argument vectors it ran, in
order. The pod listing, delete and cluster-status tools return the `Reply`
itself. `CreateSimplePod` returns a `CreateRun` that holds the `Reply` and
the manifest it wrote.

Supporting modules:

- `JsonModel` holds decoded JSON values and Python's `dict` reads.
- `Text` models these Python string operations:
  - `str.strip`, over Python's whitespace set;
  - `"\n".join` and `split`;
  - the `in` substring test and ASCII `lower`;
  - `str(int)`.
- `Config` holds the two defaults from `mcp_config.py`.

## Model

| member | source | states |
|---|---|---|
| Runner.RunKubectl | k8s_tools.py:13-39 | success only after exit code 0. After exit code 0 the decoder is applied to the trimmed stdout: a decoded value is the data, text that is not JSON is the data itself, and any other decoder exception is a failure carrying its message. A non-zero exit fails with the trimmed stderr. An exception from launching or waiting fails with its message |
| Runner.ZeroExitSucceedsIff | k8s_tools.py:30-39 | after exit code 0 the result is a success exactly when the decoder raises nothing except JSONDecodeError |
| Runner.TextFallbackIsTrimmedOutput | k8s_tools.py:30-35 | when the trimmed output does not decode, the data is exactly that trimmed text, with no whitespace at either end and nothing else altered |
| Runner.ToDict | k8s_tools.py:33-39 | the returned dictionary always has "success", plus exactly one of "data" (on success) or "error" (on failure) |
| Runner.DictRoundTrip | k8s_tools.py:33-39 | reading "success" and then "data" or "error", as the tools do, recovers the result exactly |
| Text.StripIsTheTrim | k8s_tools.py:31 | a string is the strip of s exactly when s is that string with whitespace only before and after it, its own ends not being whitespace |
| Text.SplitJoin | k8s_tools.py:74 | splitting a newline join of lines that hold no newline gives the lines back |
| Text.JoinSplit | k8s_tools.py:74 | joining the newline-separated pieces of any text gives the text back |
| Text.ContainsIff | k8s_tools.py:92 | the substring test holds exactly when the needle occurs at some position of the haystack |
| Text.NatToString | k8s_tools.py:65 | a count renders as a non-empty string of decimal digits with no leading zero except for 0 itself |
| Text.IntToStringRoundTrip | k8s_tools.py:65-72 | the rendered counts and restart sums read back as the same integer |
| PodListing.ReadyCount | k8s_tools.py:63-64 | the ready count never exceeds the number of containers |
| PodListing.ReadyCountAllIff | k8s_tools.py:63-64 | ready count equals the total exactly when every container is ready |
| PodListing.ReadyCountNoneIff | k8s_tools.py:63 | ready count is 0 exactly when no container is ready |
| PodListing.RestartSumAppend | k8s_tools.py:70 | the restart total is additive over any split of the container list |
| PodListing.RestartSumOfUncounted | k8s_tools.py:70 | containers without a restartCount contribute 0 |
| PodListing.RestartSumExample | k8s_tools.py:55-72 | a running pod whose two containers restarted once and twice, one of them ready, is listed as `• p: Running (Ready: 1/2, Restarts: 3)` |
| PodListing.UnknownReadinessExample | k8s_tools.py:55-72 | a pod without container statuses is listed as `• p: Pending (Ready: Unknown, Restarts: 0)` |
| PodListing.Summarise | k8s_tools.py:55-70 | the line reads the pod's metadata.name and status.phase. Counts are present exactly when containerStatuses is, and then total is the list length, ready counts the ready containers and ready never exceeds total. Restarts are the sum of restartCount values, and 0 when containerStatuses is absent |
| PodListing.GetPodsInfo | k8s_tools.py:42-74 | exactly one command, `get pods -n <ns> -o json`, is issued; a failed call yields `❌ Error: ` followed by the error |
| PodListing.NoPodsIff | k8s_tools.py:46-51 | the reply is the "No pods found" message exactly when the call succeeded and "items" is missing or falsy (null, false, 0, or an empty list, dictionary or string) |
| PodListing.EmptyDefaultNamespace | k8s_tools.py:42-51 | an empty list in the default namespace gives `No pods found in namespace 'default'` |
| PodListing.ListingLines | k8s_tools.py:54-74 | the listing's lines are the header followed by exactly one pod line per item, in item order |
| PodLifecycle.ManifestMetadata | k8s_tools.py:80-96 | apiVersion `v1`, kind `Pod`, the given name and namespace, both labels, restartPolicy `Never` |
| PodLifecycle.ManifestContainer | k8s_tools.py:88-95 | exactly one container, with the pod's name and the image. Its ports are `[{containerPort: 80}]` exactly when "nginx" occurs in the lower-cased image, and empty exactly when it does not |
| PodLifecycle.NginxImageGetsPort | k8s_tools.py:92 | an `nginx:latest` image gets port 80 |
| PodLifecycle.BusyboxImageGetsNoPort | k8s_tools.py:92 | a `busybox` image gets no port |
| PodLifecycle.CreateSimplePod | k8s_tools.py:77-108 | the manifest written is the one for the requested name, image and namespace, and one `apply -f` of that file is issued. The reply starts with ✅ exactly when the apply succeeded, and is the created or failed message accordingly |
| PodLifecycle.CreateSubmitsRequestedPod | k8s_tools.py:80-104 | what create_simple_pod submits is a Pod with the requested name and namespace and restartPolicy `Never`. Its single container runs the image and exposes port 80 exactly when "nginx" occurs in the lower-cased image |
| PodLifecycle.DeletePodByName | k8s_tools.py:113-120 | one `delete pod <name> -n <ns>` is issued; the reply starts with ✅ exactly when it succeeded, and is the deleted or failed message accordingly |
| ClusterStatus.AnyReadyIff | k8s_tools.py:145-148 | the short-circuiting scan finds readiness exactly when some condition has type "Ready" and status "True" |
| ClusterStatus.NodeIsReady | k8s_tools.py:143-149 | a node is Ready exactly when one of its conditions has type "Ready" and status "True" |
| ClusterStatus.NodeLineReadyIff | k8s_tools.py:143-150 | a node's line is `• <name>: Ready` exactly when one of its conditions is Ready/True, and `• <name>: NotReady` exactly when none is |
| ClusterStatus.ReadyNodeExample | k8s_tools.py:142-150 | a node with the single condition Ready/True is readable, Ready, and renders as `• name: Ready` |
| ClusterStatus.GetClusterStatus | k8s_tools.py:123-154 | a failed cluster-info gives only its error message and the node query is never issued; otherwise both queries are issued, in order |
| ClusterStatus.ClusterInfoShown | k8s_tools.py:133-138 | after a successful cluster-info its text appears in the reply |
| ClusterStatus.NodeSectionLines | k8s_tools.py:133-154 | the reply's last lines are the node section. When nodes are listed, that is the node header followed by one line per node, in order; otherwise it is the single fallback line |
| ClusterStatus.FallbackIsLastLine | k8s_tools.py:140-154 | when the node data is missing, the reply's last line is `❌ Could not retrieve node information` |
| ClusterStatus.FallbackIff | k8s_tools.py:140-154 | the reply's last line is the fallback line exactly when the node query failed or listed nothing |

## Left out

- Process launch and waiting (k8s_tools.py:19-28) are modelled only through their outcome, `ProcessOutcome`. This covers the 30-second timeout (`Config.KubectlTimeout`) and a missing kubectl binary; a timeout is one more `Raised` outcome.
- Byte-to-text decoding of the output streams (k8s_tools.py:31, 37) is left out. The runner decodes only the stream it reads, stdout after exit code 0 and stderr otherwise; a decode error there is an exception the runner catches, so it too is a `Raised` outcome.
- JSON decoding (k8s_tools.py:33-34) is the parameter `parse`. It returns a decoded value, reports JSONDecodeError, or reports any other exception with its message. Floating-point JSON numbers are not part of `Json`.
- The print trace of the command line (k8s_tools.py:17) is left out because it is logging only.
- Writing the manifest to a temporary file and deleting it (k8s_tools.py:98-101, 109-110) is filesystem I/O and is left out. The file's path is the parameter `manifestPath`; the JSON text written (`json.dump` with indent 2) is not modelled, only the manifest value.
- `main.py` (tool registration and server start-up) and `remote_mcp_server.py` (HTTP endpoints) are transport glue around these functions. They are not part of this model.
- PodListing.Summarise: requires metadata.name and status.phase to be JSON strings. Python formats any value there with an f-string; only the string case is modelled.
- PodListing.Summarise: requires containerStatuses, when present, to be a JSON list, and each restartCount to be an integer or a boolean. Python would also accept an empty dict or string there, and floats.
- PodListing.GetPodsInfo: requires a successful result's data to be a dictionary, because the code calls `.get("items")` on it. A truthy "items" must be a list of readable pods. Text data would raise in the program and is not modelled as a reply.
- PodListing.GetPodsInfo: does not model CPython's limit on converting integers to text (`sys.int_info.default_max_str_digits`, 4300 digits). A pod whose restart counts add up to more than 4300 digits makes the f-string at k8s_tools.py:72 raise ValueError, which nothing in `get_pods_info` catches. The model still renders that sum and lists the pod, and `PodListing.ListingLines` describes that listing. `json.loads` refuses a single integer longer than that, but two accepted counts can sum past it.
- ClusterStatus.GetClusterStatus: once cluster-info succeeded, requires a successful node query's data to be a dictionary whose truthy "items" is a list of nodes. Text data would raise AttributeError at `.get("items")` (k8s_tools.py:140) after both commands ran, and is not modelled as a reply.
- ClusterStatus.GetClusterStatus: requires each listed node's name to be a JSON string, and its conditions to be a list whose entries up to the first Ready/True one are dictionaries with "type", and also with "status" when the type is "Ready", as Python's short-circuiting `and` reads them.
- ClusterStatus.GetClusterStatus: a successful cluster-info result is shown through its text; a non-text result would be a Python TypeError in the join and is excluded.
- PodLifecycle.LooksLikeNginx: lower-cases ASCII letters only. Python's `str.lower` is Unicode-wide, but no non-ASCII character lowers to one of the letters n, g, i, x except U+0130, which lowers to "i" followed by a combining dot, so the combining dot always follows the "i" and "nginx" cannot be completed.
- PodListing.ListingLines: stated only for names, phases and a namespace without line breaks. Otherwise one pod's text spans several lines.
- ClusterStatus.NodeSectionLines: stated only for node names without line breaks, for the same reason.
- ClusterStatus.FallbackIff: stated only for node names without line breaks, for the same reason.
