// What the agent makes of a container runtime's answer. The runtime itself is an
// oracle: any reply to any container id at any time.
module Cri {
  import opened Wrappers
  import opened Errors

  datatype ContainerInfo = ContainerInfo(namespace: string, podName: string, containerName: string)

  datatype Reply =
    | Status(labels: map<string, string>)
    | NoStatus
    | StatusNotFound
    | Failure

  const POD_NAMESPACE_LABEL := "io.kubernetes.pod.namespace"
  const POD_NAME_LABEL := "io.kubernetes.pod.name"
  const CONTAINER_NAME_LABEL := "io.kubernetes.container.name"

  // Reading an absent key of a Go map yields the empty string.
  function Label(labels: map<string, string>, name: string): string {
    if name in labels then labels[name] else ""
  }

  function ContainerNames(containerID: string, reply: Reply): Result<ContainerInfo, Error> {
    if containerID == "" then Err(Plain(EmptyContainerID))
    else
      match reply
      case StatusNotFound => Err(Wrap(ContainerNotFound))
      case Failure => Err(Wrap(Plain(RPC)))
      case NoStatus => Err(Plain(EmptyStatus))
      case Status(labels) =>
        var info := ContainerInfo(Label(labels, POD_NAMESPACE_LABEL), Label(labels, POD_NAME_LABEL),
                                  Label(labels, CONTAINER_NAME_LABEL));
        if info.namespace == "" || info.podName == "" || info.containerName == ""
        then Err(Wrap(NotPod))
        else Ok(info)
  }

  ghost predicate HasText(labels: map<string, string>, name: string) {
    name in labels && labels[name] != ""
  }

  // The three labels that kubelet puts on every container, and the names they give.
  ghost predicate LabelsName(labels: map<string, string>, info: ContainerInfo) {
    && HasText(labels, "io.kubernetes.pod.namespace") && labels["io.kubernetes.pod.namespace"] == info.namespace
    && HasText(labels, "io.kubernetes.pod.name") && labels["io.kubernetes.pod.name"] == info.podName
    && HasText(labels, "io.kubernetes.container.name") && labels["io.kubernetes.container.name"] == info.containerName
  }

  // A container gets names exactly when the runtime knows it and labels it completely, and
  // then those of the labels.
  lemma NamedExactlyWhen(containerID: string, reply: Reply, info: ContainerInfo)
    ensures ContainerNames(containerID, reply) == Ok(info)
            <==> containerID != "" && reply.Status? && LabelsName(reply.labels, info)
  {
  }
}
