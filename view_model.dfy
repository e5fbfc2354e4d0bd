/**
 * The configuration dialog's edit state: `ConfigViewModel` with its port
 * texts, its `changed` flag and its two ordered rule lists, the rule and
 * metadata-entry objects those lists hold, and `serialize()`, which turns
 * the edit state into a `MediatorConfiguration`.
 */
module ViewModel {
  import opened Wrappers
  import opened KotlinText

  /**
   * A `SnapshotStateList`: a mutable list object that views share by
   * reference and edit in place.
   */
  class StateList<T> {
    var items: seq<T>

    constructor (items: seq<T>)
      ensures this.items == items
    {
      this.items := items;
    }
  }

  /** One key/value row of a metadata table; both cells are edited in place. */
  class MetadataEntry {
    var key: string
    var value: string

    /** The initial value cell is not part of this model. */
    constructor (key: string)
      ensures this.key == key
    {
      this.key := key;
    }
  }

  datatype SchemaSource = ServerReflection | ProtoRoot | FileDescriptorSet

  /**
   * A server rule as the editor holds it. Its scalar settings are state
   * cells; its metadata table and its two path lists are lists of its own.
   */
  class ServerRuleViewModel {
    var name: string
    var enabled: bool
    var regex: string
    var replaceSsl: bool
    var replace: string
    var replaceEnabled: bool
    var schemaSource: SchemaSource
    const reflectionMetadata: StateList<MetadataEntry>
    const roots: StateList<string>
    const descriptors: StateList<string>

    /** A new rule; its default settings are not part of this model. */
    constructor ()
      ensures fresh(reflectionMetadata) && fresh(roots) && fresh(descriptors)
    {
      reflectionMetadata := new StateList([]);
      roots := new StateList([]);
      descriptors := new StateList([]);
    }
  }

  /** What a request rule rewrites. */
  datatype RuleTarget = MetadataTarget | MessageTarget

  /** The patch operation of a request rule. */
  datatype Operation = Test | Add | Replace | Remove | Copy | Move

  /**
   * A request rule as the editor holds it. The source's `method` and
   * `type` cells are `methodPattern` and `target` here (both words are
   * reserved in Dafny).
   */
  class RequestRuleViewModel {
    var name: string
    var enabled: bool
    var methodPattern: string
    var target: RuleTarget
    var op: Operation
    var path: string
    var value: string

    /** A new rule; its default settings are not part of this model. */
    constructor ()
    {
    }
  }

  /**
   * The configuration record `serialize()` builds. Each rule stands for the
   * record its own `serialize()` produces, which is not part of this model.
   */
  datatype MediatorConfiguration = MediatorConfiguration(
    proxyPort: Int32,
    grpcPort: Int32,
    serverRules: seq<ServerRuleViewModel>,
    requestRules: seq<RequestRuleViewModel>)

  /**
   * The server rules that `serialize()` keeps: those whose host pattern is
   * not empty, in their original order.
   */
  function KeptServerRules(rules: seq<ServerRuleViewModel>): (r: seq<ServerRuleViewModel>)
    reads rules
    ensures |r| <= |rules|
    ensures forall x :: x in r ==> x in rules && x.regex != ""
    ensures forall i :: 0 <= i < |rules| && rules[i].regex != "" ==> rules[i] in r
  {
    if rules == [] then []
    else (if rules[0].regex != "" then [rules[0]] else []) + KeptServerRules(rules[1..])
  }

  /**
   * Keeping distributes over concatenation, so the kept rules appear in
   * the order the list has them.
   */
  lemma {:induction false} KeptServerRulesAppend(a: seq<ServerRuleViewModel>, b: seq<ServerRuleViewModel>)
    ensures KeptServerRules(a + b) == KeptServerRules(a) + KeptServerRules(b)
  {
    if a != [] {
      assert (a + b)[0] == a[0] && (a + b)[1..] == a[1..] + b;
      KeptServerRulesAppend(a[1..], b);
    } else {
      assert a + b == b;
    }
  }

  class ConfigViewModel {
    var proxyPort: string
    var grpcPort: string
    var changed: bool
    const serverRules: StateList<ServerRuleViewModel>
    const requestRules: StateList<RequestRuleViewModel>

    /**
     * The port cells hold the decimal renderings of the given ports, nothing
     * is changed yet, and the two lists are new lists holding the given
     * rules; serialising right away gives the same ports back.
     */
    constructor (proxyPort: Int32, grpcPort: Int32,
                 serverRules: seq<ServerRuleViewModel>, requestRules: seq<RequestRuleViewModel>)
      ensures this.proxyPort == IntToString(proxyPort) && this.grpcPort == IntToString(grpcPort)
      ensures !changed
      ensures fresh(this.serverRules) && fresh(this.requestRules)
      ensures this.serverRules.items == serverRules && this.requestRules.items == requestRules
      ensures Serialize().Some?
      ensures Serialize().value.proxyPort == proxyPort && Serialize().value.grpcPort == grpcPort
    {
      this.proxyPort := IntToString(proxyPort);
      this.grpcPort := IntToString(grpcPort);
      changed := false;
      this.serverRules := new StateList(serverRules);
      this.requestRules := new StateList(requestRules);
      new;
      SerializeRenderedPorts(this, proxyPort, grpcPort);
    }

    /**
     * `serialize()`: both port texts go through `toInt()`, which fails
     * (`None`) unless the text is an integer; the server rules with an empty
     * host pattern are dropped and every request rule is kept, in order.
     * Nothing is modified.
     */
    function Serialize(): (r: Option<MediatorConfiguration>)
      reads this, serverRules, requestRules, serverRules.items
      ensures r.Some? <==> ParseInt(proxyPort).Some? && ParseInt(grpcPort).Some?
      ensures r.Some? ==> Some(r.value.proxyPort) == ParseInt(proxyPort)
                          && Some(r.value.grpcPort) == ParseInt(grpcPort)
      ensures r.Some? ==> forall x :: x in r.value.serverRules ==> x in serverRules.items && x.regex != ""
      ensures r.Some? ==> forall i :: 0 <= i < |serverRules.items| && serverRules.items[i].regex != ""
                                      ==> serverRules.items[i] in r.value.serverRules
      ensures r.Some? ==> r.value.serverRules == KeptServerRules(serverRules.items)
      ensures r.Some? ==> r.value.requestRules == requestRules.items
    {
      var proxy := ParseInt(proxyPort);
      var grpc := ParseInt(grpcPort);
      if proxy.None? || grpc.None? then None
      else Some(MediatorConfiguration(proxy.value, grpc.value,
                                      KeptServerRules(serverRules.items), requestRules.items))
    }
  }

  /** Port texts that are renderings of ports serialise to those ports. */
  lemma SerializeRenderedPorts(vm: ConfigViewModel, proxyPort: Int32, grpcPort: Int32)
    requires vm.proxyPort == IntToString(proxyPort) && vm.grpcPort == IntToString(grpcPort)
    ensures vm.Serialize() == Some(MediatorConfiguration(proxyPort, grpcPort,
                                     KeptServerRules(vm.serverRules.items), vm.requestRules.items))
  {
    ParseIntRoundTrip(proxyPort);
    ParseIntRoundTrip(grpcPort);
  }

  /** An empty proxy port, which an edit can leave behind, makes `serialize()` fail. */
  lemma SerializeFailsOnEmptyProxyPort(vm: ConfigViewModel)
    requires vm.proxyPort == ""
    ensures vm.Serialize() == None
  {
  }
}
