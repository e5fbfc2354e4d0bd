/**
 * The edit handlers of the configuration dialog: the proxy-port field, the
 * rule lists' toolbar (create, remove, move up, move down), the rules'
 * setting fields, the metadata tables and path lists, and the dialog's
 * Cancel / Apply / OK buttons. Each handler changes the edit state in place
 * and, except where noted, marks it as changed.
 */
module ConfigView {
  import opened Wrappers
  import opened KotlinText
  import opened Lists
  import opened ViewModel

  const MaxPort: int := 65535

  /** The nearest TCP port number to `n`. */
  function ClampPort(n: int): (p: int)
    ensures 0 <= p <= MaxPort
    ensures 0 <= n <= MaxPort ==> p == n
    ensures n < 0 ==> p == 0
    ensures n > MaxPort ==> p == MaxPort
  {
    if n < 0 then 0 else if n > MaxPort then MaxPort else n
  }

  /** A port text in canonical form: it parses to a port, and is that port's rendering. */
  predicate IsPortText(s: string) {
    ParseInt(s).Some? && 0 <= ParseInt(s).value <= MaxPort && IntToString(ParseInt(s).value) == s
  }

  /** What the proxy-port field may show after edits: nothing, or a port. */
  predicate PortFieldOk(s: string) {
    s == "" || IsPortText(s)
  }

  /** The rendering of every port is a port text, and parses back to that port. */
  lemma RenderedPortIsPortText(p: int)
    requires 0 <= p <= MaxPort
    ensures IsPortText(IntToString(p)) && ParseInt(IntToString(p)) == Some(p)
  {
    ParseIntRoundTrip(p);
  }

  /** The texts the port field stores for out-of-range numbers are the renderings of the bounds. */
  lemma BoundRenderings()
    ensures IntToString(0) == "0" && IntToString(MaxPort) == "65535"
  {
    assert NatToString(6) == "6" && NatToString(65) == "65" && NatToString(655) == "655";
    assert NatToString(6553) == "6553";
  }

  /**
   * An edit of the proxy-port field. An integer is clamped to the port
   * range and stored in canonical form, clearing the error mark; an empty
   * text is stored and marked as an error; any other text leaves the field
   * and the mark as they were. Every edit marks the state as changed, and
   * a field that showed nothing or a port still does.
   */
  method EditProxyPort(vm: ConfigViewModel, text: string, error: bool) returns (error': bool)
    modifies vm`proxyPort, vm`changed
    ensures vm.changed
    ensures text == "" ==> vm.proxyPort == "" && error'
    ensures ParseInt(text).Some? ==> vm.proxyPort == IntToString(ClampPort(ParseInt(text).value))
                                     && IsPortText(vm.proxyPort) && !error'
    ensures text != "" && ParseInt(text).None? ==> vm.proxyPort == old(vm.proxyPort) && error' == error
    ensures PortFieldOk(old(vm.proxyPort)) ==> PortFieldOk(vm.proxyPort)
  {
    vm.changed := true;
    error' := error;
    if text == "" {
      error' := true;
      vm.proxyPort := text;
    }
    var parsed := ParseInt(text);
    if parsed.Some? {
      var n := parsed.value;
      if n < 0 {
        vm.proxyPort := "0";
      } else if n > MaxPort {
        vm.proxyPort := "65535";
      } else {
        vm.proxyPort := IntToString(n);
      }
      error' := false;
      BoundRenderings();
      RenderedPortIsPortText(ClampPort(n));
    } else {
      // The source writes the cell back to itself so that the field shows the stored text again.
      vm.proxyPort := vm.proxyPort;
    }
  }

  // The list toolbar's handlers, shared by the server-rule list and the
  // request-rule list; the metadata table's toolbar shares only removal.

  /**
   * `remove(item)`: the first occurrence of the item leaves the list (an
   * absent item, or none, leaves it as it is); the selection is cleared.
   */
  method RemoveItem<T(==)>(vm: ConfigViewModel, list: StateList<T>, item: Option<T>)
    returns (selected: Option<T>)
    modifies list, vm`changed
    ensures list.items == if item.Some? then Removed(old(list.items), item.value) else old(list.items)
    ensures selected == None && vm.changed
  {
    if item.Some? {
      list.items := Removed(list.items, item.value);
    }
    selected := None;
    vm.changed := true;
  }

  /**
   * Move-up: nothing happens without an item, or when the item is absent
   * or already first. Otherwise the item changes places with its
   * predecessor and nothing else moves.
   */
  method MoveItemUp<T(==)>(vm: ConfigViewModel, list: StateList<T>, item: Option<T>)
    modifies list, vm`changed
    ensures item.None? || IndexOf(old(list.items), item.value) <= 0 ==>
              list.items == old(list.items) && vm.changed == old(vm.changed)
    ensures item.Some? && IndexOf(old(list.items), item.value) > 0 ==>
              var i := IndexOf(old(list.items), item.value);
              list.items == old(list.items)[i - 1 := item.value][i := old(list.items)[i - 1]]
              && vm.changed
    ensures multiset(list.items) == multiset(old(list.items))
  {
    if item.None? {
      return;
    }
    var rule := item.value;
    var index := IndexOf(list.items, rule);
    if index <= 0 {
      return;
    }
    list.items := MovedUp(list.items, rule, index);
    vm.changed := true;
  }

  /**
   * Move-down: nothing happens without an item or when the item is absent.
   * Otherwise the item changes places with its successor and nothing else
   * moves. The item must not be last: the handler would then add it back
   * past the end of the list, which throws.
   */
  method MoveItemDown<T(==)>(vm: ConfigViewModel, list: StateList<T>, item: Option<T>)
    requires item.Some? && IndexOf(list.items, item.value) >= 0 ==> IndexOf(list.items, item.value) < |list.items| - 1
    modifies list, vm`changed
    ensures item.None? || IndexOf(old(list.items), item.value) < 0 ==>
              list.items == old(list.items) && vm.changed == old(vm.changed)
    ensures item.Some? && IndexOf(old(list.items), item.value) >= 0 ==>
              var i := IndexOf(old(list.items), item.value);
              list.items == old(list.items)[i := old(list.items)[i + 1]][i + 1 := item.value]
              && vm.changed
    ensures multiset(list.items) == multiset(old(list.items))
  {
    if item.None? {
      return;
    }
    var rule := item.value;
    var index := IndexOf(list.items, rule);
    if index < 0 {
      return;
    }
    list.items := MovedDown(list.items, rule, index);
    vm.changed := true;
  }

  // The server-rule list.

  /** Create: one new rule is appended; the rules already there stay as they are. */
  method CreateServerRule(vm: ConfigViewModel) returns (rule: ServerRuleViewModel)
    modifies vm.serverRules, vm`changed
    ensures fresh(rule) && rule !in old(vm.serverRules.items)
    ensures vm.serverRules.items == old(vm.serverRules.items) + [rule]
    ensures vm.changed
  {
    rule := new ServerRuleViewModel();
    vm.serverRules.items := vm.serverRules.items + [rule];
    vm.changed := true;
  }

  /** Remove: the first occurrence of the rule leaves the list; the selection is cleared. */
  method RemoveServerRule(vm: ConfigViewModel, rule: Option<ServerRuleViewModel>)
    returns (selected: Option<ServerRuleViewModel>)
    modifies vm.serverRules, vm`changed
    ensures vm.serverRules.items ==
              if rule.Some? then Removed(old(vm.serverRules.items), rule.value) else old(vm.serverRules.items)
    ensures selected == None && vm.changed
  {
    selected := RemoveItem(vm, vm.serverRules, rule);
  }

  /** Move up: the rule changes places with its predecessor, if it has one. */
  method MoveServerRuleUp(vm: ConfigViewModel, rule: Option<ServerRuleViewModel>)
    modifies vm.serverRules, vm`changed
    ensures rule.None? || IndexOf(old(vm.serverRules.items), rule.value) <= 0 ==>
              vm.serverRules.items == old(vm.serverRules.items) && vm.changed == old(vm.changed)
    ensures rule.Some? && IndexOf(old(vm.serverRules.items), rule.value) > 0 ==>
              var s, i := old(vm.serverRules.items), IndexOf(old(vm.serverRules.items), rule.value);
              vm.serverRules.items == s[i - 1 := rule.value][i := s[i - 1]] && vm.changed
    ensures multiset(vm.serverRules.items) == multiset(old(vm.serverRules.items))
  {
    MoveItemUp(vm, vm.serverRules, rule);
  }

  /** Move down: the rule changes places with its successor; it must not be last. */
  method MoveServerRuleDown(vm: ConfigViewModel, rule: Option<ServerRuleViewModel>)
    requires rule.Some? && IndexOf(vm.serverRules.items, rule.value) >= 0 ==>
               IndexOf(vm.serverRules.items, rule.value) < |vm.serverRules.items| - 1
    modifies vm.serverRules, vm`changed
    ensures rule.None? || IndexOf(old(vm.serverRules.items), rule.value) < 0 ==>
              vm.serverRules.items == old(vm.serverRules.items) && vm.changed == old(vm.changed)
    ensures rule.Some? && IndexOf(old(vm.serverRules.items), rule.value) >= 0 ==>
              var s, i := old(vm.serverRules.items), IndexOf(old(vm.serverRules.items), rule.value);
              vm.serverRules.items == s[i := s[i + 1]][i + 1 := rule.value] && vm.changed
    ensures multiset(vm.serverRules.items) == multiset(old(vm.serverRules.items))
  {
    MoveItemDown(vm, vm.serverRules, rule);
  }

  // The selected server rule's settings.

  method SetServerRuleEnabled(vm: ConfigViewModel, rule: ServerRuleViewModel, enabled: bool)
    modifies rule`enabled, vm`changed
    ensures rule.enabled == enabled && vm.changed
  {
    rule.enabled := enabled;
    vm.changed := true;
  }

  /** The title is stored trimmed. */
  method SetServerRuleName(vm: ConfigViewModel, rule: ServerRuleViewModel, text: string)
    modifies rule`name, vm`changed
    ensures rule.name == Trim(text) && Trimmed(rule.name) && vm.changed
  {
    rule.name := Trim(text);
    vm.changed := true;
  }

  /** The host pattern is stored trimmed. */
  method SetServerRuleRegex(vm: ConfigViewModel, rule: ServerRuleViewModel, text: string)
    modifies rule`regex, vm`changed
    ensures rule.regex == Trim(text) && Trimmed(rule.regex) && vm.changed
  {
    rule.regex := Trim(text);
    vm.changed := true;
  }

  /** The HTTP/HTTPS choice is enabled only while the rewrite check box is ticked. */
  method SetServerRuleReplaceSsl(vm: ConfigViewModel, rule: ServerRuleViewModel, ssl: bool)
    requires rule.replaceEnabled
    modifies rule`replaceSsl, vm`changed
    ensures rule.replaceSsl == ssl && vm.changed
  {
    rule.replaceSsl := ssl;
    vm.changed := true;
  }

  /**
   * The rewrite target is stored trimmed. The field is enabled only while
   * the rewrite check box is ticked.
   */
  method SetServerRuleReplace(vm: ConfigViewModel, rule: ServerRuleViewModel, text: string)
    requires rule.replaceEnabled
    modifies rule`replace, vm`changed
    ensures rule.replace == Trim(text) && Trimmed(rule.replace) && vm.changed
  {
    rule.replace := Trim(text);
    vm.changed := true;
  }

  /** Toggling the rewrite check box is the one setting edit that leaves `changed` alone. */
  method SetServerRuleReplaceEnabled(vm: ConfigViewModel, rule: ServerRuleViewModel, enabled: bool)
    modifies rule`replaceEnabled
    ensures rule.replaceEnabled == enabled
  {
    rule.replaceEnabled := enabled;
  }

  method SetServerRuleSchemaSource(vm: ConfigViewModel, rule: ServerRuleViewModel, source: SchemaSource)
    modifies rule`schemaSource, vm`changed
    ensures rule.schemaSource == source && vm.changed
  {
    rule.schemaSource := source;
    vm.changed := true;
  }

  // The request-rule list.

  /** Create: one new rule is appended; the rules already there stay as they are. */
  method CreateRequestRule(vm: ConfigViewModel) returns (rule: RequestRuleViewModel)
    modifies vm.requestRules, vm`changed
    ensures fresh(rule) && rule !in old(vm.requestRules.items)
    ensures vm.requestRules.items == old(vm.requestRules.items) + [rule]
    ensures vm.changed
  {
    rule := new RequestRuleViewModel();
    vm.requestRules.items := vm.requestRules.items + [rule];
    vm.changed := true;
  }

  /** Remove: the first occurrence of the rule leaves the list; the selection is cleared. */
  method RemoveRequestRule(vm: ConfigViewModel, rule: Option<RequestRuleViewModel>)
    returns (selected: Option<RequestRuleViewModel>)
    modifies vm.requestRules, vm`changed
    ensures vm.requestRules.items ==
              if rule.Some? then Removed(old(vm.requestRules.items), rule.value) else old(vm.requestRules.items)
    ensures selected == None && vm.changed
  {
    selected := RemoveItem(vm, vm.requestRules, rule);
  }

  /** Move up: the rule changes places with its predecessor, if it has one. */
  method MoveRequestRuleUp(vm: ConfigViewModel, rule: Option<RequestRuleViewModel>)
    modifies vm.requestRules, vm`changed
    ensures rule.None? || IndexOf(old(vm.requestRules.items), rule.value) <= 0 ==>
              vm.requestRules.items == old(vm.requestRules.items) && vm.changed == old(vm.changed)
    ensures rule.Some? && IndexOf(old(vm.requestRules.items), rule.value) > 0 ==>
              var s, i := old(vm.requestRules.items), IndexOf(old(vm.requestRules.items), rule.value);
              vm.requestRules.items == s[i - 1 := rule.value][i := s[i - 1]] && vm.changed
    ensures multiset(vm.requestRules.items) == multiset(old(vm.requestRules.items))
  {
    MoveItemUp(vm, vm.requestRules, rule);
  }

  /** Move down: the rule changes places with its successor; it must not be last. */
  method MoveRequestRuleDown(vm: ConfigViewModel, rule: Option<RequestRuleViewModel>)
    requires rule.Some? && IndexOf(vm.requestRules.items, rule.value) >= 0 ==>
               IndexOf(vm.requestRules.items, rule.value) < |vm.requestRules.items| - 1
    modifies vm.requestRules, vm`changed
    ensures rule.None? || IndexOf(old(vm.requestRules.items), rule.value) < 0 ==>
              vm.requestRules.items == old(vm.requestRules.items) && vm.changed == old(vm.changed)
    ensures rule.Some? && IndexOf(old(vm.requestRules.items), rule.value) >= 0 ==>
              var s, i := old(vm.requestRules.items), IndexOf(old(vm.requestRules.items), rule.value);
              vm.requestRules.items == s[i := s[i + 1]][i + 1 := rule.value] && vm.changed
    ensures multiset(vm.requestRules.items) == multiset(old(vm.requestRules.items))
  {
    MoveItemDown(vm, vm.requestRules, rule);
  }

  // The selected request rule's settings.

  method SetRequestRuleEnabled(vm: ConfigViewModel, rule: RequestRuleViewModel, enabled: bool)
    modifies rule`enabled, vm`changed
    ensures rule.enabled == enabled && vm.changed
  {
    rule.enabled := enabled;
    vm.changed := true;
  }

  /** The title is stored trimmed. */
  method SetRequestRuleName(vm: ConfigViewModel, rule: RequestRuleViewModel, text: string)
    modifies rule`name, vm`changed
    ensures rule.name == Trim(text) && Trimmed(rule.name) && vm.changed
  {
    rule.name := Trim(text);
    vm.changed := true;
  }

  /** The method pattern is stored trimmed. */
  method SetRequestRuleMethod(vm: ConfigViewModel, rule: RequestRuleViewModel, text: string)
    modifies rule`methodPattern, vm`changed
    ensures rule.methodPattern == Trim(text) && Trimmed(rule.methodPattern) && vm.changed
  {
    rule.methodPattern := Trim(text);
    vm.changed := true;
  }

  method SetRequestRuleTarget(vm: ConfigViewModel, rule: RequestRuleViewModel, target: RuleTarget)
    modifies rule`target, vm`changed
    ensures rule.target == target && vm.changed
  {
    rule.target := target;
    vm.changed := true;
  }

  method SetRequestRuleOperation(vm: ConfigViewModel, rule: RequestRuleViewModel, op: Operation)
    modifies rule`op, vm`changed
    ensures rule.op == op && vm.changed
  {
    rule.op := op;
    vm.changed := true;
  }

  /** The path (the "From" path of a copy or a move) is stored trimmed. */
  method SetRequestRulePath(vm: ConfigViewModel, rule: RequestRuleViewModel, text: string)
    modifies rule`path, vm`changed
    ensures rule.path == Trim(text) && Trimmed(rule.path) && vm.changed
  {
    rule.path := Trim(text);
    vm.changed := true;
  }

  /**
   * The value is stored trimmed; the "Value" field of a test, add or
   * replace and the "To" field of a copy or a move both edit it.
   */
  method SetRequestRuleValue(vm: ConfigViewModel, rule: RequestRuleViewModel, text: string)
    modifies rule`value, vm`changed
    ensures rule.value == Trim(text) && Trimmed(rule.value) && vm.changed
  {
    rule.value := Trim(text);
    vm.changed := true;
  }

  // Metadata tables.

  /** Create: a new entry with the key "(new)" is appended. */
  method CreateMetadataEntry(vm: ConfigViewModel, metadata: StateList<MetadataEntry>)
    returns (entry: MetadataEntry)
    modifies metadata, vm`changed
    ensures fresh(entry) && entry.key == "(new)"
    ensures metadata.items == old(metadata.items) + [entry]
    ensures vm.changed
  {
    entry := new MetadataEntry("(new)");
    metadata.items := metadata.items + [entry];
    vm.changed := true;
  }

  /** Remove: the selected entry leaves the table (no selection: nothing leaves); the selection is cleared. */
  method RemoveMetadataEntry(vm: ConfigViewModel, metadata: StateList<MetadataEntry>,
                             selected: Option<MetadataEntry>)
    returns (selected': Option<MetadataEntry>)
    modifies metadata, vm`changed
    ensures metadata.items ==
              if selected.Some? then Removed(old(metadata.items), selected.value) else old(metadata.items)
    ensures selected' == None && vm.changed
  {
    selected' := RemoveItem(vm, metadata, selected);
  }

  /** The key cell is stored trimmed. */
  method SetMetadataKey(vm: ConfigViewModel, entry: MetadataEntry, text: string)
    modifies entry`key, vm`changed
    ensures entry.key == Trim(text) && Trimmed(entry.key) && vm.changed
  {
    entry.key := Trim(text);
    vm.changed := true;
  }

  /** The value cell is stored trimmed. */
  method SetMetadataValue(vm: ConfigViewModel, entry: MetadataEntry, text: string)
    modifies entry`value, vm`changed
    ensures entry.value == Trim(text) && Trimmed(entry.value) && vm.changed
  {
    entry.value := Trim(text);
    vm.changed := true;
  }

  // Path lists (proto roots and descriptor-set files).

  /**
   * Add: the path the picker returned is appended when there is one and it
   * is not empty; otherwise neither the list nor `changed` is touched.
   */
  method AddPath(vm: ConfigViewModel, paths: StateList<string>, picked: Option<string>)
    modifies paths, vm`changed
    ensures picked.Some? && picked.value != "" ==>
              paths.items == old(paths.items) + [picked.value] && vm.changed
    ensures picked.None? || picked.value == "" ==>
              paths.items == old(paths.items) && vm.changed == old(vm.changed)
  {
    if picked.Some? && picked.value != "" {
      paths.items := paths.items + [picked.value];
      vm.changed := true;
    }
  }

  /**
   * Remove: the path at the selected index leaves the list and the
   * selection is reset to -1. The index must be a position of the list:
   * `removeAt` throws otherwise.
   */
  method RemovePath(vm: ConfigViewModel, paths: StateList<string>, selected: int) returns (selected': int)
    requires 0 <= selected < |paths.items|
    modifies paths, vm`changed
    ensures paths.items == RemovedAt(old(paths.items), selected)
    ensures selected' == -1 && vm.changed
  {
    paths.items := RemovedAt(paths.items, selected);
    selected' := -1;
    vm.changed := true;
  }

  /** Editing a path row replaces that one path with the text as typed (not trimmed). */
  method EditPath(vm: ConfigViewModel, paths: StateList<string>, index: nat, text: string)
    requires index < |paths.items|
    modifies paths, vm`changed
    ensures paths.items == old(paths.items)[index := text] && vm.changed
  {
    paths.items := paths.items[index := text];
    vm.changed := true;
  }

  // The dialog's buttons.

  datatype DialogButton = Cancel | Apply | Ok

  /** What a button press asks of the dialog's owner: to save the edit state, to close the dialog. */
  datatype DialogRequests = DialogRequests(save: bool, close: bool)

  /**
   * Cancel only closes. Apply, which is enabled only while there are
   * unsaved edits, saves and then clears `changed`. OK saves and closes,
   * leaving `changed` as it was.
   */
  method PressDialogButton(vm: ConfigViewModel, button: DialogButton) returns (requests: DialogRequests)
    requires button == Apply ==> vm.changed
    modifies vm`changed
    ensures requests.save == (button != Cancel)
    ensures requests.close == (button != Apply)
    ensures vm.changed == (button != Apply && old(vm.changed))
  {
    match button
    case Cancel =>
      requests := DialogRequests(false, true);
    case Apply =>
      requests := DialogRequests(true, false);
      vm.changed := false;
    case Ok =>
      requests := DialogRequests(true, true);
  }
}
