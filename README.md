# compose2kube: per-service translation, modelled in Dafny

compose2kube reads a docker-compose project and writes one Kubernetes object
per compose service. This project models the part of `main.go` that does the
translation for one service, plus the loop around it:

- a Pod with one container, named after the service, whose image and args come
  from the service record;
- CPU and memory limits, present only when the setting is non-zero;
- one `EnvVar` per `KEY=VALUE` entry and one `ContainerPort` per port entry,
  built by two `for` loops that append, where one bad entry ends the run;
- the switch on the restart token, which keeps the Pod (`no`, `false`) or wraps
  it in a ReplicationController (`""`, `always`, `on-failure`);
- the output file name `<name>-<rc|pod>.yaml`.

Modules, leaf first:

- `Wrappers` (`wrappers.dfy`): `Option` and `Result`.
- `GoStrings` (`gostrings.dfy`): `strings.Split`, `strings.Join` and `strings.Index` for a one-character separator. Lemmas show that Split is the unique cut into separator-free pieces that join back to the input.
- `GoStrconv` (`gostrconv.dfy`): `strconv.Atoi` for a 64-bit `int`, with `strconv.Itoa` as its inverse.
- `KubeApi` (`kubeapi.dfy`): the Kubernetes v1 object fields the translation sets, as values.
- `Compose` (`compose.dfy`): the compose service record.
- `Translation` (`translation.dfy`): the element-wise specs `EnvVarOf` and `PortOf`, and `Traverse`, which is "append in order, stop at the first failure". It also holds the loop methods `BuildEnvironment` and `BuildPorts`, `LimitsOf`, the restart table, `ReplicationControllerOf`, the specification function `Translate`, and `TranslateService`. That method is the imperative loop body, proved equal to `Translate`.
- `TranslationProperties` (`properties.dfy`): lemmas about `Translate`.
- `Scenarios` (`scenarios.dfy`): concrete inputs.
- `Driver` (`driver.dfy`): the loop over all services.

The Go value copy matters here. `replicationController` copies `pod.Spec`
by value (main.go:174) before the caller assigns `pod.Spec.RestartPolicy`
(main.go:127, 136). `Translate` and `TranslateService` build the controller
from the pod as it is before that assignment. So an RC's template holds the
filled-in container but restart policy `Unset` (Go's empty string). The same
step makes `on-failure`, `always` and `""` produce identical output.

The model follows the code, not the behaviour one might expect:

- The environment value is the text between the first and the second `=`: `A=B=C` gives `B`.
- A port with a `:` uses the field after the first colon, up to the next one. `127.0.0.1:8080:80` gives 8080, not 80.
- The only check on a port is `strconv.Atoi`. 0, negative numbers and anything that fits in 64 bits are accepted.
- `on-failure` produces a ReplicationController, not a Job.
- The container name is the service name unchanged. It is not lower-cased.
- There is no pull policy, node selector or privileged setting.

## Model

| member | source | states |
|---|---|---|
| GoStrings.Split | main.go:93-94 | at least one piece, and two or more exactly when the separator occurs |
| GoStrings.SplitAtFirst | main.go:93 | a split is the text before the first separator followed by the split of the rest; no separator gives the whole string |
| GoStrings.SplitFields | main.go:104-105 | piece 0 is the text before the first separator; piece 1 is the text between the first and second separator |
| GoStrings.SplitPiecesOmitSep | main.go:93 | no piece contains the separator |
| GoStrings.JoinSplit | main.go:93 | joining the pieces with the separator gives back the input |
| GoStrings.SplitUnique | main.go:104 | separator-free pieces that join to s are exactly Split(s): the two properties above determine Split |
| GoStrconv.AtoiItoa | main.go:107 | every 64-bit integer, 0 and negatives included, parses back from its decimal text |
| GoStrconv.Atoi | main.go:107 | `strconv.Atoi`: definition. An accepted value lies within 64 bits; AtoiAccepts, AtoiOfDigits and AtoiItoa give its meaning |
| GoStrconv.AtoiAccepts | main.go:107-110 | an accepted text is an optional sign followed by at least one digit, and its value is the signed decimal value of the digits, within 64 bits |
| GoStrconv.AtoiOfDigits | main.go:107-110 | conversely, an optional sign followed by one or more digits is accepted exactly when its signed value fits in 64 bits, and then yields that value |
| Translation.Traverse | main.go:92-112 | the append loops (env at 92-95, ports at 101-112) as a value: definition. A success has one output per entry; TraverseOk and TraverseErr give its meaning |
| Translation.TraverseOk | main.go:91-114 | building a list succeeds iff every entry does, with one output per entry, in input order |
| Translation.TraverseErr | main.go:92-112 | a failed build reports the error of the first failing entry |
| Translation.EnvVarOf | main.go:93-94 | one env entry: definition. Accepted iff it contains '=', else EnvIndexOutOfRange of the entry; EnvVarOfFields gives the fields |
| Translation.EnvVarOfFields | main.go:93-94 | an entry is accepted iff it contains '='; name = text before the first '=', value = text up to the second '=' |
| Translation.BuildEnvironment | main.go:91-97 | the env loop returns exactly the spec list, or the error of the first entry without '=' |
| Translation.PortOf | main.go:103-107 | one port entry: definition. A failure is InvalidPort, and an accepted port lies within 64 bits; PortOfFields gives the text it parses |
| Translation.PortOfFields | main.go:103-111 | with a ':' the port text is the field after the first ':'; the result is Atoi of it, with no further range check |
| Translation.BuildPorts | main.go:100-114 | the port loop returns exactly the spec list, or InvalidPort for the first text Atoi rejects |
| Translation.LimitsOf | main.go:74-88 | a cpu entry iff CpuShares != 0 and a memory entry iff MemLimit != 0, each (value, decimalSI); no other keys |
| Translation.RestartDecision | main.go:123-140 | the switch on the restart token: definition. Accepted iff the token is one of the five, and the type is rc or pod; RestartTable gives the full table |
| Translation.RestartTable | main.go:123-140 | the switch is total: "" and always give rc/Always, no and false pod/Never, on-failure rc/OnFailure, every other token an error |
| Translation.ReplicationControllerOf | main.go:157-178 | kind ReplicationController v1, 1 replica; labels == selector == template labels == {service: name}; template spec == pod spec at call time |
| Translation.FileName | main.go:148 | `name-objType.yaml`: definition. Starts with the name and '-', ends with .yaml; FileNameInjective gives its meaning |
| Translation.PodOf | main.go:59-114 | the pod before a restart policy is assigned: definition. Named and labelled after the service, one container holding the given env and ports, policy Unset |
| Translation.Translate | main.go:59-148 | the loop body for one service: definition. An error names the service; an output is an RC in name-rc.yaml or a Pod in name-pod.yaml; the TranslationProperties lemmas give the rest |
| Translation.TranslateService | main.go:59-148 | the imperative loop body (limits set in place, both loops, RC built before the policy is assigned) returns exactly Translate |
| TranslationProperties.TraverseFailsAt | main.go:92-112 | naming the first failing entry determines the error the build returns |
| TranslationProperties.TranslateSucceeds | main.go:91-140 | a service translates iff every env entry has '=', every port parses and the restart token is known |
| TranslationProperties.TranslateFailure | main.go:92-140 | the model's error carries the service name, and errors come in code order: first bad env entry, else first bad port, else the unknown restart token |
| TranslationProperties.TranslateContainer | main.go:68-114 | exactly one container, named after the service, with its image, args, limits, and one EnvVar/ContainerPort per entry in order |
| TranslationProperties.TranslateKind | main.go:123-137 | the object is an RC iff the token is "", always or on-failure, and a Pod iff it is no or false |
| TranslationProperties.TranslateFileName | main.go:148 | the file name is name + "-" + rc or pod + ".yaml", after the object written |
| TranslationProperties.TranslatePod | main.go:59-67 | a Pod output has kind Pod v1, the service name, label {service: name} and restart policy Never |
| TranslationProperties.TranslateReplicationController | main.go:124-137 | an RC output has 1 replica, selector == template labels == {service: name}, and template restart policy Unset (the copy predates the assignment) |
| TranslationProperties.RestartTokensAlike | main.go:123-137 | on-failure, always and "" give identical output; so do no and false |
| TranslationProperties.FileNameInjective | main.go:148 | a file name determines the service name and the object type |
| TranslationProperties.PortAcceptsAnyInt64 | main.go:103-107 | any 64-bit integer, bare or after a colon-free host part, is accepted as that port |
| Scenarios.EnvFooBar | main.go:93-94 | "FOO=bar" gives (FOO, bar) |
| Scenarios.EnvSecondSeparator | main.go:93-94 | "A=B=C" gives (A, B): the value stops at the second '=' |
| Scenarios.EnvEmptyValue | main.go:93-94 | "A=" gives (A, ""): a trailing '=' is an empty value |
| Scenarios.EnvWithoutSeparator | main.go:93-94 | "NOEQUALS" and "" are index-out-of-range failures |
| Scenarios.PortMapped | main.go:103-111 | "8080:80" and "80" both give port 80 |
| Scenarios.PortFirstField | main.go:104-105 | "1:2:3" gives 2; "127.0.0.1:8080:80" gives 8080 |
| Scenarios.PortRange | main.go:107-110 | "0" and "-1" are accepted; "8080:notanumber" fails with InvalidPort("notanumber") |
| Scenarios.WebService | main.go:59-148 | the nginx service with cpu 512, memory 268435456, FOO=bar and 8080:80, under every restart token: RC, Pod with Never, or the unknown-token error |
| Driver.TranslateProject | main.go:58-154 | services are handled in the given order; outputs are their translations up to the first error, which is returned |
| Driver.DistinctFileNames | main.go:148-150 | the outputs TranslateProject returns, being translations of distinct services, carry distinct `outputFileName` strings |

## Left out

- Flag parsing and the global flag variables (main.go:33-44): process configuration.
- Parsing the compose file with libcompose (main.go:46-53), a foreign library. The service record is taken as given, with `Command.Slice()` and `Environment.Slice()` as sequences.
- Creating the output directory, JSON marshalling, writing the file and printing its path (main.go:54-56, 128, 132, 137, 142-153). These are I/O and serialisation. The marshal-error branch (main.go:142-144) is therefore not modelled. Note that the content written under the `.yaml` name is JSON.
- The internals of `resource.NewQuantity` (main.go:83, 87): a quantity is the opaque pair (value, format) it was built from.
- Go's map iteration order (main.go:58) is unspecified. `Driver.TranslateProject` takes any ordering of the service names as a parameter.
- `log.Fatalf` and the index panic terminate the process. The model gives an `Err` naming the service and stops the driver loop. Exit status and messages are not modelled.
- Nil and empty slices are not distinguished: a service with no environment or no ports gets an empty sequence.
- Pointer identity is not modelled: objects are values. The only sharing in the source is the `Containers` slice between the pod and the RC template, and no field of it changes after the copy, so values give the same output.
- Go's `int` is taken to be 64 bits wide. This bounds what `strconv.Atoi` accepts.
- Joining the output directory and the file name with `filepath.Join` (main.go:149) is not modelled, and neither is the path cleaning it does. `Driver.DistinctFileNames` is about the `outputFileName` strings and not about the resulting paths. A service named `x/../web` and one named `web` both end up at `output/web-rc.yaml`.
- Go strings are byte strings, and the model uses Dafny's `string`, a sequence of Unicode characters. Every separator, token and digit the core compares against is ASCII, so the difference does not show in what is modelled.
