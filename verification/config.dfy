/** Defaults the Kubernetes tools fall back on (mcp_config.py). */
module Config {

  /** Namespace used when a tool is called without one. */
  const DefaultNamespace: string := "default"

  /** Seconds the runner waits for kubectl before giving up; the wait itself
      is outside the model, only its outcome is. */
  const KubectlTimeout: nat := 30
}
