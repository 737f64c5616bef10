/**
 * The per-service body of the loop in main.go: from one compose service it
 * builds a Pod, then either keeps the Pod or wraps it in a
 * ReplicationController, and names the output file. `log.Fatalf` and the
 * index panic become an `Err` naming the service.
 */
module Translation {
  import opened Wrappers
  import opened GoStrings
  import opened GoStrconv
  import opened KubeApi
  import opened Compose

  /** Why the run stops on a service. */
  datatype Failure =
    | EnvIndexOutOfRange(entry: string)   // `value[1]` on an entry without '='
    | InvalidPort(port: string)           // the (host-stripped) text Atoi rejected
    | UnknownRestartPolicy(restart: string)

  datatype Error = Error(service: string, failure: Failure)

  /** The object that is marshalled for a service. */
  datatype Object = PodObject(pod: Pod) | RcObject(rc: ReplicationController)

  datatype Output = Output(obj: Object, fileName: string)

  /** Restart tokens the switch recognises, and those that select a ReplicationController. */
  const RestartTokens: set<string> := {"", "always", "no", "false", "on-failure"}
  const RcTokens: set<string> := {"", "always", "on-failure"}

  // ---------------------------------------------------------------------
  // Building a sequence with `append`, stopping at the first failing entry
  // ---------------------------------------------------------------------

  /** Maps `f` over `s` in order; the first failure aborts the whole sequence. */
  function Traverse<A, B>(f: A -> Result<B, Failure>, s: seq<A>): (r: Result<seq<B>, Failure>)
    ensures r.Ok? ==> |r.value| == |s|
    decreases |s|
  {
    if |s| == 0 then Ok([])
    else match f(s[0])
      case Err(e) => Err(e)
      case Ok(b) =>
        match Traverse(f, s[1..])
        case Err(e) => Err(e)
        case Ok(bs) => Ok([b] + bs)
  }

  /** Entry `k` is the first one on which `f` fails. */
  ghost predicate FirstFailureAt<A, B>(f: A -> Result<B, Failure>, s: seq<A>, k: int)
  {
    0 <= k < |s| && f(s[k]).Err? && forall i :: 0 <= i < k ==> f(s[i]).Ok?
  }

  /** Traverse succeeds iff every entry does, giving one output per entry, in order. */
  lemma {:induction false} TraverseOk<A, B>(f: A -> Result<B, Failure>, s: seq<A>)
    ensures Traverse(f, s).Ok? <==> forall i :: 0 <= i < |s| ==> f(s[i]).Ok?
    ensures Traverse(f, s).Ok? ==>
      |Traverse(f, s).value| == |s| &&
      forall i :: 0 <= i < |s| ==> Traverse(f, s).value[i] == f(s[i]).value
    decreases |s|
  {
    if |s| > 0 {
      TraverseOk(f, s[1..]);
      assert forall i :: 1 <= i < |s| ==> s[1..][i - 1] == s[i];
    }
  }

  /** A failing Traverse reports the error of its first failing entry. */
  lemma {:induction false} TraverseErr<A, B>(f: A -> Result<B, Failure>, s: seq<A>)
    ensures Traverse(f, s).Err? ==>
      exists k :: FirstFailureAt(f, s, k) && Traverse(f, s).error == f(s[k]).error
    decreases |s|
  {
    if |s| > 0 && f(s[0]).Ok? && Traverse(f, s).Err? {
      TraverseErr(f, s[1..]);
      var k :| FirstFailureAt(f, s[1..], k) && Traverse(f, s[1..]).error == f(s[1..][k]).error;
      assert s[1..][k] == s[k + 1];
      assert forall i :: 1 <= i < k + 1 ==> s[1..][i - 1] == s[i];
      assert FirstFailureAt(f, s, k + 1);
    } else if |s| > 0 && f(s[0]).Err? {
      assert FirstFailureAt(f, s, 0);
    }
  }

  /** One more loop iteration: appending an entry extends a successful prefix. */
  lemma {:induction false} TraverseSnoc<A, B>(f: A -> Result<B, Failure>, s: seq<A>, x: A)
    ensures Traverse(f, s + [x]) ==
      match Traverse(f, s)
      case Err(e) => Err(e)
      case Ok(bs) => (match f(x) case Err(e) => Err(e) case Ok(b) => Ok(bs + [b]))
    decreases |s|
  {
    if |s| > 0 {
      assert (s + [x])[0] == s[0] && (s + [x])[1..] == s[1..] + [x];
      TraverseSnoc(f, s[1..], x);
      if f(s[0]).Ok? && Traverse(f, s[1..]).Ok? && f(x).Ok? {
        var b0, bs, b := f(s[0]).value, Traverse(f, s[1..]).value, f(x).value;
        assert [b0] + (bs + [b]) == ([b0] + bs) + [b];
      }
    } else {
      assert s + [x] == [x] && [x][1..] == [];
      if f(x).Ok? {
        assert [f(x).value] + [] == [] + [f(x).value];
      }
    }
  }

  /** A failing prefix decides the outcome: the loop may stop there. */
  lemma {:induction false} TraverseErrPrefix<A, B>(f: A -> Result<B, Failure>, s: seq<A>, k: nat)
    requires k <= |s| && Traverse(f, s[..k]).Err?
    ensures Traverse(f, s) == Traverse(f, s[..k])
    decreases k
  {
    assert k > 0;
    assert s[..k][0] == s[0];
    if f(s[0]).Ok? {
      assert s[..k][1..] == s[1..][..k - 1];
      TraverseErrPrefix(f, s[1..], k - 1);
    }
  }

  // ---------------------------------------------------------------------
  // Environment variables (main.go:91-97)
  // ---------------------------------------------------------------------

  /** One environment entry: `strings.Split(entry, "=")`, then fields 0 and 1. */
  function EnvVarOf(entry: string): (r: Result<EnvVar, Failure>)
    ensures r.Ok? <==> '=' in entry
    ensures r.Err? ==> r.error == EnvIndexOutOfRange(entry)
  {
    var value := Split(entry, '=');
    if |value| < 2 then Err(EnvIndexOutOfRange(entry))
    else Ok(EnvVar(value[0], value[1]))
  }

  /**
   * An entry is accepted iff it holds '='. The name is the text before the
   * first '='; the value is the text between the first and the second '='
   * (or the end), so anything after a second '=' is dropped.
   */
  lemma EnvVarOfFields(entry: string)
    ensures EnvVarOf(entry).Ok? <==> '=' in entry
    ensures EnvVarOf(entry).Err? ==> EnvVarOf(entry).error == EnvIndexOutOfRange(entry)
    ensures EnvVarOf(entry).Ok? ==>
      EnvVarOf(entry).value == EnvVar(FirstField(entry, '='), FirstField(AfterFirst(entry, '='), '='))
  {
    var value := Split(entry, '=');
    SplitFields(entry, '=');
    if '=' in entry {
      assert EnvVarOf(entry) == Ok(EnvVar(value[0], value[1]));
    }
  }

  /** The loop of main.go:92-95. */
  method BuildEnvironment(entries: seq<string>) returns (r: Result<seq<EnvVar>, Failure>)
    ensures r == Traverse(EnvVarOf, entries)
  {
    var environment: seq<EnvVar> := [];
    for i := 0 to |entries|
      invariant Traverse(EnvVarOf, entries[..i]) == Ok(environment)
    {
      var envs := entries[i];
      assert entries[..i + 1] == entries[..i] + [envs];
      TraverseSnoc(EnvVarOf, entries[..i], envs);
      var value := Split(envs, '=');
      if |value| < 2 {
        TraverseErrPrefix(EnvVarOf, entries, i + 1);
        return Err(EnvIndexOutOfRange(envs));
      }
      environment := environment + [EnvVar(value[0], value[1])];
    }
    assert entries[..|entries|] == entries;
    r := Ok(environment);
  }

  // ---------------------------------------------------------------------
  // Container ports (main.go:100-114)
  // ---------------------------------------------------------------------

  /** One port entry: keep field 1 of a split on ':' if there is a ':', then Atoi. */
  function PortOf(port: string): (r: Result<ContainerPort, Failure>)
    ensures r.Err? ==> r.error.InvalidPort?
    ensures r.Ok? ==> MinInt64 <= r.value.containerPort <= MaxInt64
  {
    var text := if ':' in port then Split(port, ':')[1] else port;
    match Atoi(text)
    case None => Err(InvalidPort(text))
    case Some(n) => Ok(ContainerPort(n))
  }

  /**
   * With a ':', the port is the text between the first and the second ':'
   * (not after the last one); the number is whatever Atoi makes of it, with
   * no range check of its own.
   */
  lemma PortOfFields(port: string)
    ensures var text := if ':' in port then FirstField(AfterFirst(port, ':'), ':') else port;
      PortOf(port) == match Atoi(text) case None => Err(InvalidPort(text)) case Some(n) => Ok(ContainerPort(n))
  {
    SplitFields(port, ':');
  }

  /** The loop of main.go:101-112. */
  method BuildPorts(servicePorts: seq<string>) returns (r: Result<seq<ContainerPort>, Failure>)
    ensures r == Traverse(PortOf, servicePorts)
  {
    var ports: seq<ContainerPort> := [];
    for i := 0 to |servicePorts|
      invariant Traverse(PortOf, servicePorts[..i]) == Ok(ports)
    {
      var port := servicePorts[i];
      assert servicePorts[..i + 1] == servicePorts[..i] + [port];
      TraverseSnoc(PortOf, servicePorts[..i], port);
      if ':' in port {
        var parts := Split(port, ':');
        port := parts[1];
      }
      var portNumber := Atoi(port);
      if portNumber.None? {
        TraverseErrPrefix(PortOf, servicePorts, i + 1);
        return Err(InvalidPort(port));
      }
      ports := ports + [ContainerPort(portNumber.value)];
    }
    assert servicePorts[..|servicePorts|] == servicePorts;
    r := Ok(ports);
  }

  // ---------------------------------------------------------------------
  // Resource limits (main.go:74-88)
  // ---------------------------------------------------------------------

  /** The limits map after main.go:82-88: an entry only for a non-zero setting. */
  function LimitsOf(service: ServiceConfig): (limits: map<string, Quantity>)
    ensures ResourceCPU in limits <==> service.cpuShares != 0
    ensures ResourceMemory in limits <==> service.memLimit != 0
    ensures ResourceCPU in limits ==> limits[ResourceCPU] == Quantity(service.cpuShares, LimitFormat)
    ensures ResourceMemory in limits ==> limits[ResourceMemory] == Quantity(service.memLimit, LimitFormat)
    ensures limits.Keys <= {ResourceCPU, ResourceMemory}
  {
    var empty: map<string, Quantity> := map[];
    var withCpu := if service.cpuShares != 0 then empty[ResourceCPU := Quantity(service.cpuShares, LimitFormat)] else empty;
    if service.memLimit != 0 then withCpu[ResourceMemory := Quantity(service.memLimit, LimitFormat)] else withCpu
  }

  // ---------------------------------------------------------------------
  // Restart policy (main.go:123-140) and the wrapper (main.go:157-178)
  // ---------------------------------------------------------------------

  /** The object type written into the file name, and the policy assigned to the pod. */
  datatype Decision = Decision(objType: string, policy: RestartPolicy)

  /** The switch on `service.Restart`. */
  function RestartDecision(restart: string): (r: Result<Decision, Failure>)
    ensures r.Ok? <==> restart in RestartTokens
    ensures r.Ok? ==> r.value.objType == "rc" || r.value.objType == "pod"
  {
    if restart == "" || restart == "always" then Ok(Decision("rc", Always))
    else if restart == "no" || restart == "false" then Ok(Decision("pod", Never))
    else if restart == "on-failure" then Ok(Decision("rc", OnFailure))
    else Err(UnknownRestartPolicy(restart))
  }

  /** The decision table is total: every token is recognised or rejected, and the type follows the token. */
  lemma RestartTable(restart: string)
    ensures RestartDecision(restart).Ok? <==> restart in RestartTokens
    ensures RestartDecision(restart).Err? ==> RestartDecision(restart).error == UnknownRestartPolicy(restart)
    ensures RestartDecision(restart).Ok? ==>
      && (RestartDecision(restart).value.objType == "rc" <==> restart in RcTokens)
      && (RestartDecision(restart).value.objType == "pod" <==> restart in {"no", "false"})
      && (RestartDecision(restart).value.policy == Always <==> restart in {"", "always"})
      && (RestartDecision(restart).value.policy == Never <==> restart in {"no", "false"})
      && (RestartDecision(restart).value.policy == OnFailure <==> restart == "on-failure")
  {
  }

  function ServiceLabels(name: string): map<string, string>
  {
    map["service" := name]
  }

  /**
   * `replicationController(name, pod)`: one replica, selected by the same
   * `service` label its template carries. The template's spec is a copy of
   * the pod's spec as it is at the moment of the call.
   */
  function ReplicationControllerOf(name: string, pod: Pod): (rc: ReplicationController)
    ensures rc.typeMeta == TypeMeta("ReplicationController", "v1")
    ensures rc.objectMeta.name == name && rc.spec.replicas == 1
    ensures rc.objectMeta.labels == rc.spec.selector == rc.spec.template.objectMeta.labels
    ensures rc.spec.selector.Keys == {"service"} && rc.spec.selector["service"] == name
    ensures rc.spec.template.spec == pod.spec
  {
    ReplicationController(
      TypeMeta("ReplicationController", "v1"),
      ObjectMeta(name, ServiceLabels(name)),
      ReplicationControllerSpec(
        1,
        ServiceLabels(name),
        PodTemplateSpec(ObjectMeta("", ServiceLabels(name)), pod.spec)))
  }

  // ---------------------------------------------------------------------
  // One service
  // ---------------------------------------------------------------------

  /** `fmt.Sprintf("%s-%s.yaml", name, objType)`. */
  function FileName(name: string, objType: string): (file: string)
    ensures |file| == |name| + |objType| + 6
    ensures file[..|name|] == name && file[|name|] == '-' && file[|file| - 5..] == ".yaml"
  {
    name + "-" + objType + ".yaml"
  }

  /** The pod of main.go:59-114, before any restart policy is assigned. */
  function PodOf(name: string, service: ServiceConfig, env: seq<EnvVar>, ports: seq<ContainerPort>): (pod: Pod)
    ensures pod.objectMeta.name == name && pod.objectMeta.labels == ServiceLabels(name)
    ensures |pod.spec.containers| == 1 && pod.spec.restartPolicy == Unset
    ensures pod.spec.containers[0].env == env && pod.spec.containers[0].ports == ports
  {
    Pod(
      TypeMeta("Pod", "v1"),
      ObjectMeta(name, ServiceLabels(name)),
      PodSpec([Container(name, service.image, service.command, ResourceRequirements(LimitsOf(service)), env, ports)], Unset))
  }

  /** What the loop body produces for one service, or the error that ends the run. */
  function Translate(name: string, service: ServiceConfig): (r: Result<Output, Error>)
    ensures r.Err? ==> r.error.service == name
    ensures r.Ok? ==>
      || (r.value.obj.RcObject? && r.value.fileName == FileName(name, "rc"))
      || (r.value.obj.PodObject? && r.value.fileName == FileName(name, "pod"))
  {
    match Traverse(EnvVarOf, service.environment)
    case Err(f) => Err(Error(name, f))
    case Ok(env) =>
      match Traverse(PortOf, service.ports)
      case Err(f) => Err(Error(name, f))
      case Ok(ports) =>
        match RestartDecision(service.restart)
        case Err(f) => Err(Error(name, f))
        case Ok(d) =>
          var pod := PodOf(name, service, env, ports);
          // the controller copies the spec before the policy is assigned
          var rc := ReplicationControllerOf(name, pod);
          var pod := pod.(spec := pod.spec.(restartPolicy := d.policy));
          var obj := if d.objType == "rc" then RcObject(rc) else PodObject(pod);
          Ok(Output(obj, FileName(name, d.objType)))
  }

  /** The loop body of main.go:59-148 without marshalling and writing. */
  method TranslateService(name: string, service: ServiceConfig) returns (r: Result<Output, Error>)
    ensures r == Translate(name, service)
  {
    var pod := Pod(
      TypeMeta("Pod", "v1"),
      ObjectMeta(name, ServiceLabels(name)),
      PodSpec([Container(name, service.image, service.command, ResourceRequirements(map[]), [], [])], Unset));

    var c := pod.spec.containers[0];
    if service.cpuShares != 0 {
      c := c.(resources := ResourceRequirements(c.resources.limits[ResourceCPU := Quantity(service.cpuShares, LimitFormat)]));
      pod := pod.(spec := pod.spec.(containers := pod.spec.containers[0 := c]));
    }
    if service.memLimit != 0 {
      c := c.(resources := ResourceRequirements(c.resources.limits[ResourceMemory := Quantity(service.memLimit, LimitFormat)]));
      pod := pod.(spec := pod.spec.(containers := pod.spec.containers[0 := c]));
    }

    var environment := BuildEnvironment(service.environment);
    if environment.Err? {
      return Err(Error(name, environment.error));
    }
    c := c.(env := environment.value);
    pod := pod.(spec := pod.spec.(containers := pod.spec.containers[0 := c]));

    var ports := BuildPorts(service.ports);
    if ports.Err? {
      return Err(Error(name, ports.error));
    }
    c := c.(ports := ports.value);
    pod := pod.(spec := pod.spec.(containers := pod.spec.containers[0 := c]));
    assert pod == PodOf(name, service, environment.value, ports.value);

    if service.restart == "" || service.restart == "always" {
      var rc := ReplicationControllerOf(name, pod);
      pod := pod.(spec := pod.spec.(restartPolicy := Always));
      r := Ok(Output(RcObject(rc), FileName(name, "rc")));
    } else if service.restart == "no" || service.restart == "false" {
      pod := pod.(spec := pod.spec.(restartPolicy := Never));
      r := Ok(Output(PodObject(pod), FileName(name, "pod")));
    } else if service.restart == "on-failure" {
      var rc := ReplicationControllerOf(name, pod);
      pod := pod.(spec := pod.spec.(restartPolicy := OnFailure));
      r := Ok(Output(RcObject(rc), FileName(name, "rc")));
    } else {
      r := Err(Error(name, UnknownRestartPolicy(service.restart)));
    }
  }
}
