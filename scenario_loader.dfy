/** Loading `scenarios.json` (utils/scenario-loader.js). The file holds
    either the new form `{"scenarios": [{"name": ..., "actions": [...]}, ...]}`
    or the old form `{"Scenario name": [...actions], ...}`; both are turned
    into a list form and a map form. The file system and `JSON.parse` are
    abstracted into a `ScenarioFile`. */
module ScenarioLoader {
  import opened Wrappers
  import opened JsValue

  /** What the file system and `JSON.parse` deliver: no file, a file that
      cannot be read or parsed (an exception), or the parsed value. */
  datatype ScenarioFile = Missing | Unreadable | Parsed(json: Value)

  /** The pair the loader returns: `scenarioList` and the members of the
      `scenarios` object. */
  datatype Loaded = Loaded(scenarioList: seq<Value>, scenarios: seq<(string, Value)>)

  /** The URL of the demo `url` action when no file exists. */
  const DemoUrl := "https://www.google.com"

  function AppAction(name: string, x: int, y: int, w: int, h: int): Value {
    Obj([("type", Str("app")), ("name", Str(name)),
         ("position", Arr([Num(x), Num(y)])), ("size", Arr([Num(w), Num(h)]))])
  }

  /** The two demo scenarios used when no scenario file exists; `url` is the
      address their `url` action opens. */
  function DemoScenarios(url: string): (fields: seq<(string, Value)>)
    ensures PropertyOrder(fields)
  {
    var r := [("Demo Scene 1", Arr([AppAction("TextEdit", 50, 50, 400, 300),
                                    Obj([("type", Str("url")), ("url", Str(url))])])),
              ("Demo Scene 2", Arr([AppAction("Calculator", 500, 50, 250, 400)]))];
    assert !IsIndexKey(r[0].0) && !IsIndexKey(r[1].0) by {
      assert r[0].0[0] == 'D' && r[1].0[0] == 'D';
    }
    r
  }

  /** `{name, actions}` for one member of an old-form object. */
  function Entry(member: (string, Value)): Value {
    Obj([("name", Str(member.0)), ("actions", member.1)])
  }

  lemma EntryMembers(member: (string, Value))
    ensures Get(Entry(member), "name") == Some(Str(member.0))
    ensures Get(Entry(member), "actions") == Some(member.1)
    ensures Truthy(Get(Entry(member), "name")) <==> member.0 != ""
    ensures KeyOf(Entry(member)) == member.0
  {
    var fields := Entry(member).fields;
    assert |"name"| != |"actions"|;
    assert fields[1..] == [("actions", member.1)];
    assert Lookup(fields[1..], "actions") == Some(member.1);
    assert Lookup(fields, "actions") == Lookup(fields[1..], "actions");
  }

  /** `Object.entries(o).map(([name, actions]) => ({name, actions}))`. */
  function Entries(fields: seq<(string, Value)>): seq<Value> {
    seq(|fields|, i requires 0 <= i < |fields| => Entry(fields[i]))
  }

  /** A list element the new-form loop copies into the map: a truthy `name`
      and an array `actions`. */
  predicate Registers(scenario: Value) {
    Truthy(Get(scenario, "name")) && IsArray(Get(scenario, "actions"))
  }

  /** The property key `scenarios[scenario.name]` assigns to. */
  function KeyOf(scenario: Value): string {
    ToJsString(Get(scenario, "name"))
  }

  /** The key whose assignment on a plain object runs the inherited
      `Object.prototype.__proto__` setter: it replaces the object's prototype
      and creates no own member. */
  const ProtoKey := "__proto__"

  /** The element is copied into the map as an own member under `key`. */
  predicate RegistersAs(scenario: Value, key: string) {
    Registers(scenario) && KeyOf(scenario) == key && key != ProtoKey
  }

  /** The own members the new-form loop gives the map, element by element;
      an element named `__proto__` only swaps the prototype. */
  function Collect(items: seq<Value>): seq<(string, Value)> {
    if items == [] then []
    else
      var before := Collect(items[..|items| - 1]);
      var last := items[|items| - 1];
      if RegistersAs(last, KeyOf(last)) then SetMember(before, KeyOf(last), Get(last, "actions").value)
      else before
  }

  /** A parsed value in the new form: a truthy value whose `scenarios` is an array. */
  predicate NewForm(json: Value) {
    Truthy(Some(json)) && IsArray(Get(json, "scenarios"))
  }

  predicate HasNull(items: seq<Value>) {
    exists j :: 0 <= j < |items| && items[j].Null?
  }

  /** What `loadScenarios` returns for each file. A `null` list element makes
      `scenario.name` throw and the handler resets both outputs; so does
      `Object.entries(null)` for a file holding `null`. Arrays and primitives
      are an unrecognised format. */
  function Load(file: ScenarioFile): Loaded {
    match file
    case Missing => Loaded(Entries(DemoScenarios(DemoUrl)), DemoScenarios(DemoUrl))
    case Unreadable => Loaded([], [])
    case Parsed(json) =>
      if NewForm(json) then
        var items := Get(json, "scenarios").value.items;
        if HasNull(items) then Loaded([], []) else Loaded(items, Collect(items))
      else if json.Obj? then Loaded(Entries(json.fields), json.fields)
      else Loaded([], [])
  }

  /** `loadScenarios`: the new form fills the map element by element. */
  method LoadScenarios(file: ScenarioFile) returns (scenarioList: seq<Value>, scenarios: seq<(string, Value)>)
    ensures Loaded(scenarioList, scenarios) == Load(file)
  {
    match file
    case Missing =>
      scenarios := DemoScenarios(DemoUrl);
      scenarioList := Entries(scenarios);
    case Unreadable =>
      return [], [];
    case Parsed(json) =>
      if NewForm(json) {
        scenarioList := Get(json, "scenarios").value.items;
        var completed;
        completed, scenarios := FillMap(scenarioList);
        if !completed {
          // The TypeError at a `null` element resets both outputs.
          return [], [];
        }
      } else if json.Obj? {
        scenarios := json.fields;
        scenarioList := Entries(scenarios);
      } else {
        return [], [];
      }
  }

  /** The `forEach` of the new form: `completed` is false when an element is
      `null`, where reading `scenario.name` throws. */
  method FillMap(items: seq<Value>) returns (completed: bool, scenarios: seq<(string, Value)>)
    ensures completed <==> !HasNull(items)
    ensures completed ==> scenarios == Collect(items)
  {
    scenarios := [];
    var i := 0;
    while i < |items|
      invariant 0 <= i <= |items|
      invariant forall j :: 0 <= j < i ==> !items[j].Null?
      invariant scenarios == Collect(items[..i])
    {
      var scenario := items[i];
      if scenario.Null? {
        assert items[i].Null?;
        return false, [];
      }
      assert items[..i + 1][..i] == items[..i];
      if Registers(scenario) && KeyOf(scenario) != ProtoKey {
        scenarios := SetMember(scenarios, KeyOf(scenario), Get(scenario, "actions").value);
      }
      i := i + 1;
    }
    assert items[..i] == items;
    return true, scenarios;
  }

  /** One step of `Collect`: the last element decides the member under its key. */
  lemma CollectStep(items: seq<Value>, key: string)
    requires items != []
    ensures Lookup(Collect(items), key) ==
      if RegistersAs(items[|items| - 1], key) then Get(items[|items| - 1], "actions")
      else Lookup(Collect(items[..|items| - 1]), key)
  {
  }

  /** The position of the last element registering under `key`, or -1. */
  function LastRegistering(items: seq<Value>, key: string): (r: int)
    ensures -1 <= r < |items|
    ensures r >= 0 ==> RegistersAs(items[r], key)
    ensures forall j :: r < j < |items| ==> !RegistersAs(items[j], key)
  {
    if items == [] then -1
    else if RegistersAs(items[|items| - 1], key) then |items| - 1
    else
      var n := |items| - 1;
      assert forall j :: 0 <= j < n ==> items[..n][j] == items[j];
      LastRegistering(items[..n], key)
  }

  /** The map holds under `key` the `actions` of the last list element that
      registers under `key`, and nothing when there is none: a later
      duplicate overwrites an earlier one. `__proto__` never becomes a member. */
  lemma {:induction false} CollectLookup(items: seq<Value>, key: string)
    ensures key == ProtoKey ==> Lookup(Collect(items), key).None?
    ensures var last := LastRegistering(items, key);
      Lookup(Collect(items), key) == if last < 0 then None else Get(items[last], "actions")
  {
    if items != [] {
      var n := |items| - 1;
      CollectLookup(items[..n], key);
      CollectStep(items, key);
      if !RegistersAs(items[n], key) {
        var last := LastRegistering(items[..n], key);
        assert last >= 0 ==> items[..n][last] == items[last];
      }
    }
  }

  /** The map built from a list is an object in JavaScript property order. */
  lemma {:induction false} CollectOrder(items: seq<Value>)
    ensures PropertyOrder(Collect(items))
  {
    if items != [] {
      var n := |items| - 1;
      CollectOrder(items[..n]);
      if RegistersAs(items[n], KeyOf(items[n])) {
        SetMemberOrder(Collect(items[..n]), KeyOf(items[n]), Get(items[n], "actions").value);
      }
    }
  }

  /** In the old form and the default, the list has one `{name, actions}`
      element per member, in key order, and each element's name leads back
      to its own actions in the map. */
  lemma EntriesAgree(fields: seq<(string, Value)>)
    requires DistinctKeys(fields)
    ensures |Entries(fields)| == |fields|
    ensures forall i :: 0 <= i < |fields| ==>
      Get(Entries(fields)[i], "name") == Some(Str(fields[i].0))
      && Lookup(fields, fields[i].0) == Get(Entries(fields)[i], "actions")
  {
    forall i | 0 <= i < |fields|
      ensures Get(Entries(fields)[i], "name") == Some(Str(fields[i].0))
      ensures Lookup(fields, fields[i].0) == Get(Entries(fields)[i], "actions")
    {
      assert Entries(fields)[i] == Entry(fields[i]);
      EntryMembers(fields[i]);
      LookupDistinct(fields, i);
    }
  }

  /** The new form keeps the list exactly as stored, and the map holds exactly
      the names of the registering elements other than `__proto__`. */
  lemma LoadNewForm(json: Value, key: string)
    requires NewForm(json) && !HasNull(Get(json, "scenarios").value.items)
    ensures Load(Parsed(json)).scenarioList == Get(json, "scenarios").value.items
    ensures var items := Get(json, "scenarios").value.items;
      Lookup(Load(Parsed(json)).scenarios, key).Some? <==>
        key != ProtoKey && exists j :: 0 <= j < |items| && Registers(items[j]) && KeyOf(items[j]) == key
  {
    var items := Get(json, "scenarios").value.items;
    CollectLookup(items, key);
    var last := LastRegistering(items, key);
    if last >= 0 {
      assert Get(items[last], "actions").Some?;
    }
  }

  /** Without a file, both outputs hold exactly the two demo scenarios, and
      each list element's name maps to its own actions. */
  lemma LoadDefault()
    ensures var r := Load(Missing);
      && |r.scenarioList| == 2 && |r.scenarios| == 2
      && r.scenarios[0].0 == "Demo Scene 1" && r.scenarios[1].0 == "Demo Scene 2"
      && forall i :: 0 <= i < 2 ==>
           Get(r.scenarioList[i], "name") == Some(Str(r.scenarios[i].0))
           && Lookup(r.scenarios, r.scenarios[i].0) == Get(r.scenarioList[i], "actions")
  {
    EntriesAgree(DemoScenarios(DemoUrl));
  }

  /** Unreadable files, a `null` list element and every shape that is neither
      form leave both outputs empty. */
  lemma LoadEmpty(file: ScenarioFile)
    requires || file.Unreadable?
             || (file.Parsed? && !NewForm(file.json) && !file.json.Obj?)
             || (file.Parsed? && NewForm(file.json) && HasNull(Get(file.json, "scenarios").value.items))
    ensures Load(file) == Loaded([], [])
  {
  }

  /** Writing a loaded old-form object back as `{"scenarios": list}` (the
      disabled write-back of the default) and loading that again gives the
      same map, provided every name is non-empty and not `__proto__`, and
      every value an array. */
  lemma {:induction false} CollectEntries(fields: seq<(string, Value)>)
    requires PropertyOrder(fields)
    requires forall i :: 0 <= i < |fields| ==> fields[i].0 != "" && fields[i].0 != ProtoKey && fields[i].1.Arr?
    ensures Collect(Entries(fields)) == fields
  {
    if fields != [] {
      var n := |fields| - 1;
      var init := fields[..n];
      assert PropertyOrder(init) by {
        assert forall i :: 0 <= i < n ==> init[i] == fields[i];
      }
      CollectEntries(init);
      var e := Entries(fields)[n];
      assert e == Entry(fields[n]);
      EntryMembers(fields[n]);
      assert Entries(fields)[..n] == Entries(init);
      AppendAtEnd(fields, n);
      assert init + [fields[n]] == fields;
    }
  }

  /** The last member of an ordered object is where `SetMember` puts it. */
  lemma AppendAtEnd(fields: seq<(string, Value)>, n: nat)
    requires PropertyOrder(fields) && n == |fields| - 1
    ensures SetMember(fields[..n], fields[n].0, fields[n].1) == fields[..n] + [fields[n]]
  {
    var init := fields[..n];
    var key := fields[n].0;
    assert forall i :: 0 <= i < n ==> init[i] == fields[i];
    assert Lookup(init, key).None?;
    var p := InsertPosition(init, key);
    assert p == n;
    assert init[..p] == init && init[p..] == [];
  }
}
