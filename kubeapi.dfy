/**
 * The fragment of the Kubernetes v1 API objects that the translation fills
 * in, as plain values. Fields the translation never sets are left out.
 */
module KubeApi {

  /**
   * The format both limits are built with: main.go:83 and 87 pass the
   * string literal "decimalSI" (lower-case d) as a `resource.Format`.
   */
  const LimitFormat := "decimalSI"

  /** `api.ResourceCPU` and `api.ResourceMemory`, the keys of a limits map. */
  const ResourceCPU := "cpu"
  const ResourceMemory := "memory"

  datatype TypeMeta = TypeMeta(kind: string, apiVersion: string)

  /** Name and labels; a pod template carries an empty (zero-value) name. */
  datatype ObjectMeta = ObjectMeta(name: string, labels: map<string, string>)

  /** What `resource.NewQuantity(value, format)` returns, kept as the pair it was built from. */
  datatype Quantity = Quantity(value: int, format: string)

  datatype ResourceRequirements = ResourceRequirements(limits: map<string, Quantity>)

  datatype EnvVar = EnvVar(name: string, value: string)

  /** Go's `int` field `ContainerPort`. */
  datatype ContainerPort = ContainerPort(containerPort: int)

  datatype Container = Container(
    name: string,
    image: string,
    args: seq<string>,
    resources: ResourceRequirements,
    env: seq<EnvVar>,
    ports: seq<ContainerPort>)

  /** `api.RestartPolicy`; `Unset` is Go's zero value, the empty string. */
  datatype RestartPolicy = Unset | Always | OnFailure | Never

  datatype PodSpec = PodSpec(containers: seq<Container>, restartPolicy: RestartPolicy)

  datatype Pod = Pod(typeMeta: TypeMeta, objectMeta: ObjectMeta, spec: PodSpec)

  datatype PodTemplateSpec = PodTemplateSpec(objectMeta: ObjectMeta, spec: PodSpec)

  datatype ReplicationControllerSpec = ReplicationControllerSpec(
    replicas: int,
    selector: map<string, string>,
    template: PodTemplateSpec)

  datatype ReplicationController = ReplicationController(
    typeMeta: TypeMeta,
    objectMeta: ObjectMeta,
    spec: ReplicationControllerSpec)
}
