/** The part of a container's spec that a checkpoint's registry entry keeps. */
module CheckpointSpecs {
  import opened Options
  import opened Records

  datatype Protocol = Tcp | Udp

  datatype PortBinding = PortBinding(hostPort: nat, guestPort: nat, protocol: Protocol)

  /** The fields of a container spec that matter to a checkpoint. */
  datatype ContainerSpec = ContainerSpec(env: seq<Pair>, command: Option<seq<string>>, ports: seq<PortBinding>,
                                         memoryLimitMb: Option<nat>)

  datatype RegistrySpec = RegistrySpec(env: map<string, string>, command: Option<seq<string>>, exposedPorts: seq<nat>,
                                       memoryLimitMb: Option<nat>, exposedUdpPorts: Option<seq<nat>>)

  /** What fromCheckpoint() configures its container with. */
  datatype Builder = Builder(env: map<string, string>, command: Option<seq<string>>, exposedPorts: seq<nat>,
                             exposedUdpPorts: seq<nat>, memoryLimitMb: Option<nat>)

  function GuestPorts(ports: seq<PortBinding>, protocol: Protocol): seq<nat> {
    if ports == [] then []
    else (if ports[0].protocol == protocol then [ports[0].guestPort] else []) + GuestPorts(ports[1..], protocol)
  }

  /** toCheckpointRegistrySpec */
  function ToRegistry(spec: ContainerSpec): RegistrySpec {
    var udp := GuestPorts(spec.ports, Udp);
    RegistrySpec(Record(spec.env), spec.command, GuestPorts(spec.ports, Tcp), spec.memoryLimitMb,
                 if udp != [] then Some(udp) else None)
  }

  function Bindings(guestPorts: seq<nat>, protocol: Protocol): seq<PortBinding> {
    if guestPorts == [] then [] else [PortBinding(0, guestPorts[0], protocol)] + Bindings(guestPorts[1..], protocol)
  }

  /** fromCheckpointRegistryEntry, with entries the object's own pairs in whatever order. */
  function FromRegistry(spec: RegistrySpec, entries: seq<Pair>, captured: Option<seq<string>>): ContainerSpec {
    ContainerSpec(
      entries,
      if spec.command.Some? then spec.command else captured,
      Bindings(spec.exposedPorts, Tcp)
        + Bindings(if spec.exposedUdpPorts.Some? then spec.exposedUdpPorts.value else [], Udp),
      spec.memoryLimitMb)
  }

  /** withEnv, once per pair: the last value of a variable wins. */
  function WithEnv(env: seq<Pair>): map<string, string> {
    if env == [] then map[] else WithEnv(env[..|env| - 1])[env[|env| - 1].0 := env[|env| - 1].1]
  }

  /** fromCheckpoint */
  function FromCheckpoint(spec: ContainerSpec): Builder {
    Builder(WithEnv(spec.env), spec.command, GuestPorts(spec.ports, Tcp), GuestPorts(spec.ports, Udp),
            spec.memoryLimitMb)
  }

  ghost predicate EntriesOf(env: map<string, string>, entries: seq<Pair>) {
    UniqueKeys(entries) && forall pair: Pair :: pair in entries <==> pair.0 in env && env[pair.0] == pair.1
  }

  lemma {:induction false} GuestPortsOfConcat(a: seq<PortBinding>, b: seq<PortBinding>, protocol: Protocol)
    ensures GuestPorts(a + b, protocol) == GuestPorts(a, protocol) + GuestPorts(b, protocol)
  {
    if a == [] {
      assert a + b == b;
    } else {
      var first := if a[0].protocol == protocol then [a[0].guestPort] else [];
      var rest, there := GuestPorts(a[1..], protocol), GuestPorts(b, protocol);
      assert (a + b)[1..] == a[1..] + b;
      GuestPortsOfConcat(a[1..], b, protocol);
      assert first + (rest + there) == (first + rest) + there;
    }
  }

  lemma {:induction false} GuestPortsOfBindings(guestPorts: seq<nat>, made: Protocol, asked: Protocol)
    ensures GuestPorts(Bindings(guestPorts, made), asked) == if made == asked then guestPorts else []
  {
    if guestPorts != [] { GuestPortsOfBindings(guestPorts[1..], made, asked); }
  }

  /** The guest ports of a protocol's bindings, as often as they are bound. */
  lemma {:induction false} GuestPortsMeaning(ports: seq<PortBinding>, protocol: Protocol, guestPort: nat)
    ensures guestPort in GuestPorts(ports, protocol) <==>
              exists b <- ports :: b.protocol == protocol && b.guestPort == guestPort
    ensures |GuestPorts(ports, Tcp)| + |GuestPorts(ports, Udp)| == |ports|
  {
    if ports != [] {
      assert ports == [ports[0]] + ports[1..];
      GuestPortsMeaning(ports[1..], protocol, guestPort);
    }
  }

  lemma {:induction false} RecordDropsProto(env: seq<Pair>)
    ensures Record(env) == WithEnv(env) - {"__proto__"}
  {
    if env != [] { RecordDropsProto(env[..|env| - 1]); }
  }

  lemma KeyAgrees(env: seq<Pair>, entries: seq<Pair>, key: string)
    requires EntriesOf(Record(env), entries)
    ensures key in Record(entries) <==> key in Record(env)
    ensures key in Record(env) ==> Record(entries)[key] == Record(env)[key]
  {
    RecordDropsProto(env);
    if key in Record(entries) {
      RecordOfUnique(entries, key, Record(entries)[key]);
    }
    if key in Record(env) {
      assert (key, Record(env)[key]) in entries;
      RecordOfUnique(entries, key, Record(env)[key]);
    }
  }

  lemma {:induction false} WithEnvKeys(env: seq<Pair>, key: string)
    ensures key in WithEnv(env) ==> exists pair <- env :: pair.0 == key
  {
    if env != [] {
      WithEnvKeys(env[..|env| - 1], key);
      assert env[|env| - 1] in env;
    }
  }

  lemma RecordOfEntries(env: seq<Pair>, entries: seq<Pair>)
    requires EntriesOf(Record(env), entries)
    ensures Record(entries) == Record(env)
  {
    forall key ensures key in Record(entries) <==> key in Record(env) { KeyAgrees(env, entries, key); }
    forall key | key in Record(env) ensures Record(entries)[key] == Record(env)[key] { KeyAgrees(env, entries, key); }
    assert Record(entries).Keys == Record(env).Keys;
  }

  lemma NoProtoEntry(env: seq<Pair>, entries: seq<Pair>)
    requires EntriesOf(Record(env), entries)
    ensures "__proto__" !in WithEnv(entries)
  {
    RecordDropsProto(env);
    WithEnvKeys(entries, "__proto__");
  }

  lemma EnvOfEntries(env: seq<Pair>, entries: seq<Pair>)
    requires EntriesOf(Record(env), entries)
    ensures WithEnv(entries) == Record(env)
  {
    RecordOfEntries(env, entries);
    NoProtoEntry(env, entries);
    RecordDropsProto(entries);
    assert WithEnv(entries) - {"__proto__"} == WithEnv(entries);
  }

  /** Through the registry and back, a checkpoint configures its container as the source was:
      the same environment - but for a variable named __proto__ -, the guest ports of each
      protocol in their order, the memory limit, and the source's command, or the captured one
      where it had none. */
  lemma RestoredAsCheckpointed(spec: ContainerSpec, entries: seq<Pair>, captured: Option<seq<string>>)
    requires EntriesOf(ToRegistry(spec).env, entries)
    ensures FromCheckpoint(FromRegistry(ToRegistry(spec), entries, captured))
         == Builder(WithEnv(spec.env) - {"__proto__"},
                    if spec.command.Some? then spec.command else captured,
                    GuestPorts(spec.ports, Tcp), GuestPorts(spec.ports, Udp),
                    spec.memoryLimitMb)
  {
    EnvOfEntries(spec.env, entries);
    RecordDropsProto(spec.env);
    var tcp, udp := GuestPorts(spec.ports, Tcp), GuestPorts(spec.ports, Udp);
    GuestPortsOfConcat(Bindings(tcp, Tcp), Bindings(udp, Udp), Tcp);
    GuestPortsOfConcat(Bindings(tcp, Tcp), Bindings(udp, Udp), Udp);
    GuestPortsOfBindings(tcp, Tcp, Tcp);
    GuestPortsOfBindings(tcp, Tcp, Udp);
    GuestPortsOfBindings(udp, Udp, Tcp);
    GuestPortsOfBindings(udp, Udp, Udp);
  }
}
