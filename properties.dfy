/**
 * What one service's translation promises: when it succeeds, when and how it
 * fails, what the single container holds, and which object comes out.
 */
module TranslationProperties {
  import opened Wrappers
  import opened GoStrings
  import opened GoStrconv
  import opened KubeApi
  import opened Compose
  import opened Translation

  /** The containers of the object that is written out. */
  function ContainersOf(obj: Object): seq<Container>
  {
    match obj
    case PodObject(pod) => pod.spec.containers
    case RcObject(rc) => rc.spec.template.spec.containers
  }

  /** The object type that ends up in the file name. */
  function ObjType(obj: Object): string
  {
    if obj.RcObject? then "rc" else "pod"
  }

  /** Naming the first failing entry decides what Traverse returns. */
  lemma {:induction false} TraverseFailsAt<A, B>(f: A -> Result<B, Failure>, s: seq<A>, k: int)
    requires FirstFailureAt(f, s, k)
    ensures Traverse(f, s) == Err(f(s[k]).error)
    decreases |s|
  {
    if k > 0 {
      assert s[1..][k - 1] == s[k];
      assert forall i :: 0 <= i < k - 1 ==> s[1..][i] == s[i + 1];
      TraverseFailsAt(f, s[1..], k - 1);
    }
  }

  /** A service translates iff every env entry has '=', every port parses and the restart token is known. */
  lemma TranslateSucceeds(name: string, service: ServiceConfig)
    ensures Translate(name, service).Ok? <==>
      && (forall i :: 0 <= i < |service.environment| ==> '=' in service.environment[i])
      && (forall i :: 0 <= i < |service.ports| ==> PortOf(service.ports[i]).Ok?)
      && service.restart in RestartTokens
  {
    TraverseOk(EnvVarOf, service.environment);
    TraverseOk(PortOf, service.ports);
    RestartTable(service.restart);
    forall i | 0 <= i < |service.environment| {
      EnvVarOfFields(service.environment[i]);
    }
  }

  /**
   * Failures are reported in the order the loop body meets them: the first
   * entry without '=', else the first port Atoi rejects, else the restart token.
   */
  lemma TranslateFailure(name: string, service: ServiceConfig)
    ensures Translate(name, service).Err? ==> Translate(name, service).error.service == name
    ensures forall k :: FirstFailureAt(EnvVarOf, service.environment, k) ==>
      Translate(name, service) == Err(Error(name, EnvIndexOutOfRange(service.environment[k])))
    ensures (forall i :: 0 <= i < |service.environment| ==> EnvVarOf(service.environment[i]).Ok?) ==>
      forall k :: FirstFailureAt(PortOf, service.ports, k) ==>
        Translate(name, service) == Err(Error(name, PortOf(service.ports[k]).error))
    ensures
      && (forall i :: 0 <= i < |service.environment| ==> EnvVarOf(service.environment[i]).Ok?)
      && (forall i :: 0 <= i < |service.ports| ==> PortOf(service.ports[i]).Ok?)
      && service.restart !in RestartTokens
      ==> Translate(name, service) == Err(Error(name, UnknownRestartPolicy(service.restart)))
  {
    TraverseOk(EnvVarOf, service.environment);
    TraverseOk(PortOf, service.ports);
    RestartTable(service.restart);
    forall k | FirstFailureAt(EnvVarOf, service.environment, k) {
      TraverseFailsAt(EnvVarOf, service.environment, k);
    }
    forall k | FirstFailureAt(PortOf, service.ports, k) {
      TraverseFailsAt(PortOf, service.ports, k);
    }
  }

  /**
   * The single container: the service name verbatim, image and args copied,
   * the limits of LimitsOf, and one EnvVar / ContainerPort per entry, in order.
   */
  lemma TranslateContainer(name: string, service: ServiceConfig)
    requires Translate(name, service).Ok?
    ensures var cs := ContainersOf(Translate(name, service).value.obj);
      && |cs| == 1
      && cs[0].name == name
      && cs[0].image == service.image
      && cs[0].args == service.command
      && cs[0].resources.limits == LimitsOf(service)
      && |cs[0].env| == |service.environment|
      && (forall i :: 0 <= i < |service.environment| ==> EnvVarOf(service.environment[i]) == Ok(cs[0].env[i]))
      && |cs[0].ports| == |service.ports|
      && (forall i :: 0 <= i < |service.ports| ==> PortOf(service.ports[i]) == Ok(cs[0].ports[i]))
  {
    TraverseOk(EnvVarOf, service.environment);
    TraverseOk(PortOf, service.ports);
  }

  /** A ReplicationController exactly for "", "always" and "on-failure", a Pod exactly for "no" and "false". */
  lemma TranslateKind(name: string, service: ServiceConfig)
    requires Translate(name, service).Ok?
    ensures Translate(name, service).value.obj.RcObject? <==> service.restart in RcTokens
    ensures Translate(name, service).value.obj.PodObject? <==> service.restart in {"no", "false"}
  {
    RestartTable(service.restart);
  }

  /** The output file is `<name>-rc.yaml` or `<name>-pod.yaml`, after the object written. */
  lemma TranslateFileName(name: string, service: ServiceConfig)
    requires Translate(name, service).Ok?
    ensures Translate(name, service).value.fileName == FileName(name, ObjType(Translate(name, service).value.obj))
  {
  }

  /** A bare Pod: kind, version, name, the service label, and restart policy Never. */
  lemma TranslatePod(name: string, service: ServiceConfig)
    requires Translate(name, service).Ok? && Translate(name, service).value.obj.PodObject?
    ensures var pod := Translate(name, service).value.obj.pod;
      && pod.typeMeta == TypeMeta("Pod", "v1")
      && pod.objectMeta.name == name
      && pod.objectMeta.labels.Keys == {"service"} && pod.objectMeta.labels["service"] == name
      && pod.spec.restartPolicy == Never
  {
    RestartTable(service.restart);
  }

  /**
   * A ReplicationController: one replica whose selector equals its template's
   * labels. Its template spec was copied before the restart policy was set,
   * so that policy is left at Go's zero value.
   */
  lemma TranslateReplicationController(name: string, service: ServiceConfig)
    requires Translate(name, service).Ok? && Translate(name, service).value.obj.RcObject?
    ensures var rc := Translate(name, service).value.obj.rc;
      && rc.typeMeta == TypeMeta("ReplicationController", "v1")
      && rc.objectMeta.name == name
      && rc.spec.replicas == 1
      && rc.spec.selector == rc.spec.template.objectMeta.labels == rc.objectMeta.labels
      && rc.spec.selector.Keys == {"service"} && rc.spec.selector["service"] == name
      && rc.spec.template.spec.restartPolicy == Unset
  {
    RestartTable(service.restart);
  }

  /**
   * Because of that copy, the policy chosen for "on-failure", "always" and ""
   * never reaches the output: the three tokens give the same object and file.
   * Likewise "no" and "false".
   */
  lemma RestartTokensAlike(name: string, service: ServiceConfig)
    ensures Translate(name, service.(restart := "on-failure")) == Translate(name, service.(restart := "always"))
    ensures Translate(name, service.(restart := "always")) == Translate(name, service.(restart := ""))
    ensures Translate(name, service.(restart := "no")) == Translate(name, service.(restart := "false"))
  {
    var onFailure, always := service.(restart := "on-failure"), service.(restart := "always");
    assert LimitsOf(onFailure) == LimitsOf(always) == LimitsOf(service.(restart := ""));
    assert LimitsOf(service.(restart := "no")) == LimitsOf(service.(restart := "false"));
  }

  /** Two services never get the same file name: the name and the type can be read back from it. */
  lemma FileNameInjective(name1: string, objType1: string, name2: string, objType2: string)
    requires objType1 in {"rc", "pod"} && objType2 in {"rc", "pod"}
    requires FileName(name1, objType1) == FileName(name2, objType2)
    ensures name1 == name2 && objType1 == objType2
  {
    var f := FileName(name1, objType1);
    assert f == name2 + "-" + objType2 + ".yaml";
    // the character before ".yaml" is 'c' for "rc" and 'd' for "pod"
    assert f[|f| - 6] == objType1[|objType1| - 1];
    assert f[|f| - 6] == objType2[|objType2| - 1];
    assert objType1 == objType2;
    assert |name1| == |name2|;
    assert f[..|name1|] == name1;
    assert f[..|name2|] == name2;
  }

  /** Every 64-bit integer is accepted as a port, bare or after a host part: no range check. */
  lemma PortAcceptsAnyInt64(n: Int64, host: string)
    requires ':' !in host
    ensures PortOf(Itoa(n)) == Ok(ContainerPort(n))
    ensures PortOf(host + ":" + Itoa(n)) == Ok(ContainerPort(n))
  {
    AtoiItoa(n);
    var text := Itoa(n);
    assert ':' !in text by {
      AtoiAccepts(text);
    }
    PortOfFields(text);
    var mapped := host + ":" + text;
    assert mapped[|host|] == ':' && mapped[..|host|] == host;
    IndexOfUnique(mapped, ':', |host|);
    assert mapped[|host| + 1..] == text;
    PortOfFields(mapped);
  }
}
