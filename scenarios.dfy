/** Concrete inputs and what the translation makes of them. */
module Scenarios {
  import opened Wrappers
  import opened GoStrings
  import opened GoStrconv
  import opened KubeApi
  import opened Compose
  import opened Translation

  /** A literal split, obtained from the characterisation of Split. */
  lemma SplitLiteral(s: string, sep: char, parts: seq<string>)
    requires |parts| >= 1 && Join(parts, sep) == s
    requires forall i :: 0 <= i < |parts| ==> sep !in parts[i]
    ensures Split(s, sep) == parts
  {
    SplitUnique(parts, sep);
  }

  /** A literal Atoi, obtained from the round trip with Itoa. */
  lemma AtoiLiteral(s: string, n: Int64)
    requires Itoa(n) == s
    ensures Atoi(s) == Some(n)
  {
    AtoiItoa(n);
  }

  /** "FOO=bar" is the pair (FOO, bar). */
  lemma EnvFooBar()
    ensures EnvVarOf("FOO=bar") == Ok(EnvVar("FOO", "bar"))
  {
    SplitLiteral("FOO=bar", '=', ["FOO", "bar"]);
  }

  /** The second '=' ends the value: "A=B=C" gives value "B", not "B=C". */
  lemma EnvSecondSeparator()
    ensures EnvVarOf("A=B=C") == Ok(EnvVar("A", "B"))
  {
    SplitLiteral("A=B=C", '=', ["A", "B", "C"]);
  }

  /** A trailing '=' gives the empty value. */
  lemma EnvEmptyValue()
    ensures EnvVarOf("A=") == Ok(EnvVar("A", ""))
  {
    SplitLiteral("A=", '=', ["A", ""]);
  }

  /** Entries without '=' stop the run. */
  lemma EnvWithoutSeparator()
    ensures EnvVarOf("NOEQUALS") == Err(EnvIndexOutOfRange("NOEQUALS"))
    ensures EnvVarOf("") == Err(EnvIndexOutOfRange(""))
  {
    SplitLiteral("NOEQUALS", '=', ["NOEQUALS"]);
  }

  /** PortOf from a literal split and a literal Atoi, kept apart so the solver does not unfold both. */
  lemma PortLiteral(port: string, text: string, n: int)
    requires if ':' in port then Split(port, ':')[1] == text else port == text
    requires Atoi(text) == Some(n)
    ensures PortOf(port) == Ok(ContainerPort(n))
  {
  }

  lemma SplitMapped()
    ensures Split("8080:80", ':') == ["8080", "80"]
  {
    SplitLiteral("8080:80", ':', ["8080", "80"]);
  }

  lemma SplitThreeFields()
    ensures Split("1:2:3", ':') == ["1", "2", "3"]
  {
    SplitLiteral("1:2:3", ':', ["1", "2", "3"]);
  }

  lemma SplitAddress()
    ensures Split("127.0.0.1:8080:80", ':') == ["127.0.0.1", "8080", "80"]
  {
    SplitLiteral("127.0.0.1:8080:80", ':', ["127.0.0.1", "8080", "80"]);
  }

  lemma SplitNotANumber()
    ensures Split("8080:notanumber", ':') == ["8080", "notanumber"]
  {
    SplitLiteral("8080:notanumber", ':', ["8080", "notanumber"]);
  }

  lemma AtoiPorts()
    ensures Atoi("80") == Some(80) && Atoi("2") == Some(2) && Atoi("8080") == Some(8080)
    ensures Atoi("0") == Some(0) && Atoi("-1") == Some(-1)
    ensures Atoi("notanumber") == None
  {
    AtoiMapped();
    AtoiSigned();
    AtoiNotANumber();
  }

  lemma AtoiMapped()
    ensures Atoi("80") == Some(80) && Atoi("2") == Some(2) && Atoi("8080") == Some(8080)
  {
    AtoiLiteral("80", 80);
    AtoiLiteral("2", 2);
    AtoiLiteral("8080", 8080);
  }

  lemma AtoiSigned()
    ensures Atoi("0") == Some(0) && Atoi("-1") == Some(-1)
  {
    AtoiLiteral("0", 0);
    AtoiLiteral("-1", -1);
  }

  /** Text that starts with neither a sign nor a digit is rejected. */
  lemma AtoiNotANumber()
    ensures Atoi("notanumber") == None
  {
    var s := "notanumber";
    assert s[0] == 'n' && !IsDigit(s[0]);
  }

  /** "8080:80" and "80" both give container port 80. */
  lemma PortMapped()
    ensures PortOf("8080:80") == Ok(ContainerPort(80))
    ensures PortOf("80") == Ok(ContainerPort(80))
  {
    SplitMapped();
    AtoiPorts();
    PortLiteral("8080:80", "80", 80);
    PortLiteral("80", "80", 80);
  }

  /** The field after the FIRST ':' is taken, so "ip:host:container" yields the host port. */
  lemma PortFirstField()
    ensures PortOf("1:2:3") == Ok(ContainerPort(2))
    ensures PortOf("127.0.0.1:8080:80") == Ok(ContainerPort(8080))
  {
    SplitThreeFields();
    SplitAddress();
    AtoiPorts();
    PortLiteral("1:2:3", "2", 2);
    PortLiteral("127.0.0.1:8080:80", "8080", 8080);
  }

  /** Zero and negative ports are accepted; non-numeric text stops the run. */
  lemma PortRange()
    ensures PortOf("0") == Ok(ContainerPort(0))
    ensures PortOf("-1") == Ok(ContainerPort(-1))
    ensures PortOf("8080:notanumber") == Err(InvalidPort("notanumber"))
  {
    SplitNotANumber();
    AtoiPorts();
    PortLiteral("0", "0", 0);
    PortLiteral("-1", "-1", -1);
  }

  const Web := ServiceConfig("nginx", [], 512, 268435456, ["FOO=bar"], ["8080:80"], "")

  /** The pod main.go:59-114 builds for Web under a given name. */
  function WebPod(name: string): Pod
  {
    Pod(
      TypeMeta("Pod", "v1"),
      ObjectMeta(name, map["service" := name]),
      PodSpec([Container(name, "nginx", [],
        ResourceRequirements(map[ResourceCPU := Quantity(512, LimitFormat), ResourceMemory := Quantity(268435456, LimitFormat)]),
        [EnvVar("FOO", "bar")], [ContainerPort(80)])], Unset))
  }

  /** Traverse over a single entry. */
  lemma TraverseOne<A, B>(f: A -> Result<B, Failure>, x: A, b: B)
    requires f(x) == Ok(b)
    ensures Traverse(f, [x]) == Ok([b])
  {
    assert [x][0] == x && [x][1..] == [];
    assert Traverse(f, []) == Ok([]);
    assert [b] + [] == [b];
  }

  lemma WebEnvironment()
    ensures Traverse(EnvVarOf, ["FOO=bar"]) == Ok([EnvVar("FOO", "bar")])
  {
    EnvFooBar();
    TraverseOne(EnvVarOf, "FOO=bar", EnvVar("FOO", "bar"));
  }

  lemma WebPorts()
    ensures Traverse(PortOf, ["8080:80"]) == Ok([ContainerPort(80)])
  {
    PortMapped();
    TraverseOne(PortOf, "8080:80", ContainerPort(80));
  }

  /** Web's pod, whatever its restart token. */
  lemma WebPodOf(name: string, service: ServiceConfig)
    requires service == Web.(restart := service.restart)
    ensures Traverse(EnvVarOf, service.environment) == Ok([EnvVar("FOO", "bar")])
    ensures Traverse(PortOf, service.ports) == Ok([ContainerPort(80)])
    ensures PodOf(name, service, [EnvVar("FOO", "bar")], [ContainerPort(80)]) == WebPod(name)
  {
    WebEnvironment();
    WebPorts();
    assert LimitsOf(service) == map[ResourceCPU := Quantity(512, LimitFormat), ResourceMemory := Quantity(268435456, LimitFormat)];
  }

  /**
   * A web service (nginx, cpu 512, memory 256 MiB, FOO=bar, port 8080:80)
   * under any name, for every restart token: "", "always" and "on-failure"
   * give the same ReplicationController around its pod, "no" and "false"
   * give the pod itself with policy Never, anything else stops the run.
   */
  lemma WebService(name: string, restart: string)
    ensures Translate(name, Web.(restart := restart)) ==
      if restart in RcTokens then Ok(Output(RcObject(ReplicationControllerOf(name, WebPod(name))), FileName(name, "rc")))
      else if restart in {"no", "false"} then Ok(Output(PodObject(WebPod(name).(spec := WebPod(name).spec.(restartPolicy := Never))), FileName(name, "pod")))
      else Err(Error(name, UnknownRestartPolicy(restart)))
  {
    WebPodOf(name, Web.(restart := restart));
    RestartTable(restart);
  }
}
