/** RubyLsp::Rails::CodeLens: the listener the Prism dispatcher drives while
    walking a document. It emits Run / Run In Terminal / Debug lenses for
    Active Support test classes and their tests, nesting each test under its
    class by group id, and a lens showing the route of each public action of
    a controller. Prism nodes are reduced to the fields the listener reads;
    the dispatcher's walk is the sequence of events it delivers. */
module CodeLens {
  import opened Outcomes
  import opened Text

  /** A node's location as Prism reports it: 1-based lines, 0-based columns. */
  datatype Span = Span(startLine: int, startColumn: int, endLine: int, endColumn: int)

  datatype DefNode = DefNode(name: string, location: Span)

  /** `testName` is what extract_test_case_name answers for the call: the
      description of a `test "..." do` block, nothing for any other call. */
  datatype CallNode = CallNode(name: string, testName: Option<string>, location: Span)

  /** A direct child of a class body. */
  datatype Statement = DefStatement(def: DefNode) | CallStatement(call: CallNode) | OtherStatement

  /** `constantPath` is the source text of the class name, `superclass` that
      of its superclass; `body` is absent for an empty class. */
  datatype ClassNode = ClassNode(constantPath: string, superclass: Option<string>,
                                 body: Option<seq<Statement>>, location: Span)

  /** The callbacks the listener registers for. */
  datatype Event =
    | ClassEnter(classNode: ClassNode)
    | ClassLeave(classNode: ClassNode)
    | DefEnter(def: DefNode)
    | CallEnter(call: CallNode)

  datatype SourceLocation = SourceLocation(file: string, line: int)
  datatype Route = Route(path: string, verb: string, sourceLocation: SourceLocation)

  /** What the listener is constructed with: the document's path (nil for a
      document without one), whether the platform is Windows, the client's
      route lookup by controller and action, and whether the global index
      holds an entry for a class's name (`index[node.name.to_s]` is not nil). */
  datatype Env = Env(path: Option<string>, windows: bool, route: (string, string) -> Option<Route>,
                     indexed: ClassNode -> bool)

  datatype Kind = Example | Group

  /** The grouping data of a test lens: its enclosing group (nil at top
      level), its kind, and for a group its own id. */
  datatype Grouping = Grouping(groupId: Option<int>, kind: Kind, id: Option<int>)

  datatype Arguments =
    | TestArguments(path: string, name: string, command: string, range: Span)
    | FileArguments(sourceLocation: SourceLocation, range: Span)

  /** A code lens as handed to the response builder: the node it annotates,
      its command, and its data (`type` plus, for test lenses, the grouping). */
  datatype Lens = Lens(location: Span, title: string, commandName: string, arguments: Arguments,
                       dataType: string, grouping: Option<Grouping>)

  /** The listener's state: the next group id, the ids of the open test
      classes (innermost last), and the lenses emitted so far. */
  datatype Listener = Listener(groupId: int, stack: seq<int>, lenses: seq<Lens>)

  const Initial: Listener := Listener(1, [], [])

  predicate IsTestClass(c: ClassNode) {
    EndsWith(c.constantPath, "Test")
  }

  predicate IsTestEnter(e: Event) {
    e.ClassEnter? && IsTestClass(e.classNode)
  }

  /** Entering or leaving a class whose name ends in Test. */
  predicate IsTestClassEvent(e: Event) {
    (e.ClassEnter? || e.ClassLeave?) && IsTestClass(e.classNode)
  }

  /** Route lenses are attempted for a class and superclass both named *Controller. */
  predicate IsController(c: ClassNode) {
    EndsWith(c.constantPath, "Controller") && c.superclass.Some? && EndsWith(c.superclass.value, "Controller")
  }

  /** The editor's 0-based range for a node: lines shifted down by one, columns kept. */
  function ZeroBased(location: Span): (r: Span)
    ensures r.startLine + 1 == location.startLine && r.endLine + 1 == location.endLine
    ensures r.startColumn == location.startColumn && r.endColumn == location.endColumn
  {
    Span(location.startLine - 1, location.startColumn, location.endLine - 1, location.endColumn)
  }

  function TestCommand(windows: bool): (command: string)
    ensures EndsWith(command, "bin/rails test")
    ensures windows <==> StartsWith(command, "ruby ")
  {
    if windows then "ruby bin/rails test"
    else assert "bin/rails test"[0] != "ruby "[0]; "bin/rails test"
  }

  /** String interpolation of the path: nil interpolates as "". */
  function PathText(path: Option<string>): string {
    match path
    case None => ""
    case Some(p) => p
  }

  /** The command running one test: `<test command> <path>:<line>`. */
  function ExampleCommand(env: Env, line: int): string {
    TestCommand(env.windows) + " " + PathText(env.path) + ":" + ShowInt(line)
  }

  /** The command running a whole test class: `<test command> <path>`. */
  function ClassCommand(env: Env): string {
    TestCommand(env.windows) + " " + PathText(env.path)
  }

  /** `@group_id_stack.last`: nil when empty. */
  function Last(stack: seq<int>): Option<int> {
    if stack == [] then None else Some(stack[|stack| - 1])
  }

  /** `@group_id_stack.pop`: popping an empty stack leaves it empty. */
  function Pop(stack: seq<int>): seq<int> {
    if stack == [] then [] else stack[..|stack| - 1]
  }

  /** `add_test_code_lens`: nothing for a document without a path, otherwise
      the Run, Run In Terminal and Debug lenses, in that order, sharing one
      argument list and one grouping: the enclosing group, the kind, and for
      a group the id it is about to be pushed with. */
  function AddTestCodeLens(env: Env, l: Listener, location: Span, name: string, command: string, kind: Kind)
    : (lenses: seq<Lens>)
    ensures env.path.None? ==> lenses == []
    ensures env.path.Some? ==> |lenses| == 3
    ensures env.path.Some? ==>
              lenses[0].title == "Run" && lenses[0].commandName == "rubyLsp.runTest"
              && lenses[0].dataType == "test"
              && lenses[1].title == "Run In Terminal" && lenses[1].commandName == "rubyLsp.runTestInTerminal"
              && lenses[1].dataType == "test_in_terminal"
              && lenses[2].title == "Debug" && lenses[2].commandName == "rubyLsp.debugTest"
              && lenses[2].dataType == "debug"
    ensures forall i :: 0 <= i < |lenses| ==>
              lenses[i].location == location
              && lenses[i].arguments == TestArguments(env.path.value, name, command, ZeroBased(location))
              && lenses[i].grouping == Some(Grouping(Last(l.stack), kind, if kind == Group then Some(l.groupId) else None))
  {
    match env.path
    case None => []
    case Some(path) =>
      var arguments := TestArguments(path, name, command, ZeroBased(location));
      var grouping := Some(Grouping(Last(l.stack), kind, if kind == Group then Some(l.groupId) else None));
      [ Lens(location, "Run", "rubyLsp.runTest", arguments, "test", grouping),
        Lens(location, "Run In Terminal", "rubyLsp.runTestInTerminal", arguments, "test_in_terminal", grouping),
        Lens(location, "Debug", "rubyLsp.debugTest", arguments, "debug", grouping) ]
  }

  predicate IsVisibilityCall(s: Statement) {
    s.CallStatement? && (s.call.name == "private" || s.call.name == "protected")
  }

  /** The class body's children taken while none is a `private`/`protected` call. */
  function PublicPrefix(body: seq<Statement>): seq<Statement> {
    if body == [] || IsVisibilityCall(body[0]) then [] else [body[0]] + PublicPrefix(body[1..])
  }

  /** The `def`s among some statements, in order. */
  function Defs(statements: seq<Statement>): seq<DefNode> {
    if statements == [] then []
    else (if statements[0].DefStatement? then [statements[0].def] else []) + Defs(statements[1..])
  }

  /** The actions a controller's route lenses are looked up for. */
  function PublicDefs(body: seq<Statement>): seq<DefNode> {
    Defs(PublicPrefix(body))
  }

  /** An action is considered exactly when it is a `def` among the class
      body's children with no `private`/`protected` call at or before it. */
  lemma {:induction false} PublicDefsBeforeFirstVisibilityCall(body: seq<Statement>, d: DefNode)
    ensures d in PublicDefs(body) <==>
              exists i :: 0 <= i < |body| && body[i] == DefStatement(d)
                          && forall j :: 0 <= j <= i ==> !IsVisibilityCall(body[j])
    decreases |body|
  {
    if body == [] {
    } else if IsVisibilityCall(body[0]) {
      assert PublicDefs(body) == [];
    } else {
      var tail := body[1..];
      PublicDefsBeforeFirstVisibilityCall(tail, d);
      var prefix := [body[0]] + PublicPrefix(tail);
      assert prefix[0] == body[0] && prefix[1..] == PublicPrefix(tail);
      assert PublicDefs(body) == (if body[0].DefStatement? then [body[0].def] else []) + PublicDefs(tail);
      if d in PublicDefs(body) {
        if body[0] == DefStatement(d) {
          assert 0 < |body| && body[0] == DefStatement(d) && forall j :: 0 <= j <= 0 ==> !IsVisibilityCall(body[j]);
        } else {
          assert d in PublicDefs(tail);
          var i :| 0 <= i < |tail| && tail[i] == DefStatement(d) && forall j :: 0 <= j <= i ==> !IsVisibilityCall(tail[j]);
          assert body[i + 1] == DefStatement(d);
          forall j | 0 <= j <= i + 1
            ensures !IsVisibilityCall(body[j])
          {
            if j > 0 {
              assert body[j] == tail[j - 1];
            }
          }
        }
      }
      if exists i :: 0 <= i < |body| && body[i] == DefStatement(d)
                     && forall j :: 0 <= j <= i ==> !IsVisibilityCall(body[j]) {
        var i :| 0 <= i < |body| && body[i] == DefStatement(d)
                 && forall j :: 0 <= j <= i ==> !IsVisibilityCall(body[j]);
        if i > 0 {
          assert tail[i - 1] == DefStatement(d);
          forall j | 0 <= j <= i - 1
            ensures !IsVisibilityCall(tail[j])
          {
            assert tail[j] == body[j + 1];
          }
        }
      }
    }
  }

  /** The lens `add_route_code_lens_to_action` adds for an action with a route:
      titled `<verb> <path>`, opening the route's source location. */
  function RouteLens(d: DefNode, route: Route): Lens {
    Lens(d.location, route.verb + " " + route.path, "rubyLsp.openFile",
         FileArguments(route.sourceLocation, ZeroBased(d.location)), "file", None)
  }

  /** How many of the actions have a route. */
  function Routed(env: Env, controller: string, defs: seq<DefNode>): nat
    decreases |defs|
  {
    if defs == [] then 0
    else (if env.route(controller, defs[0].name).Some? then 1 else 0) + Routed(env, controller, defs[1..])
  }

  /** `add_route_code_lens_to_action` over the actions in order: a lens for
      each action whose route lookup answers, none for the others. */
  function RouteLenses(env: Env, controller: string, defs: seq<DefNode>): (lenses: seq<Lens>)
    ensures |lenses| <= |defs|
    ensures |lenses| == Routed(env, controller, defs)
    ensures forall i :: 0 <= i < |lenses| ==>
              lenses[i].grouping.None? && lenses[i].commandName == "rubyLsp.openFile" && lenses[i].dataType == "file"
    decreases |defs|
  {
    if defs == [] then []
    else
      var rest := RouteLenses(env, controller, defs[1..]);
      match env.route(controller, defs[0].name)
      case None => rest
      case Some(route) => [RouteLens(defs[0], route)] + rest
  }

  /** The lenses one action contributes. */
  function ActionLenses(env: Env, controller: string, d: DefNode): seq<Lens> {
    match env.route(controller, d.name)
    case None => []
    case Some(r) => [RouteLens(d, r)]
  }

  lemma RouteLensesCons(env: Env, controller: string, d: DefNode, rest: seq<DefNode>)
    ensures RouteLenses(env, controller, [d] + rest)
         == ActionLenses(env, controller, d) + RouteLenses(env, controller, rest)
  {
  }

  /** A lens for exactly the actions whose route lookup answers: every lens
      is the route lens of such an action, and every such action has its lens. */
  lemma {:induction false} RouteLensesCoverRoutedActions(env: Env, controller: string, defs: seq<DefNode>)
    ensures var lenses := RouteLenses(env, controller, defs);
            && (forall i :: 0 <= i < |lenses| ==>
                  exists d :: d in defs && env.route(controller, d.name).Some?
                              && lenses[i] == RouteLens(d, env.route(controller, d.name).value))
            && (forall d :: d in defs && env.route(controller, d.name).Some? ==>
                  RouteLens(d, env.route(controller, d.name).value) in lenses)
    decreases |defs|
  {
    if defs != [] {
      var rest := defs[1..];
      RouteLensesCoverRoutedActions(env, controller, rest);
      assert defs == [defs[0]] + rest;
      RouteLensesCons(env, controller, defs[0], rest);
      assert forall d :: d in rest ==> d in defs;
      assert forall d :: d in defs ==> d == defs[0] || d in rest;
    }
  }

  /** The lenses follow the order of the actions: the lenses of a run of
      actions followed by another are those of the first run followed by
      those of the second. */
  lemma {:induction false} RouteLensesInActionOrder(env: Env, controller: string, a: seq<DefNode>, b: seq<DefNode>)
    ensures RouteLenses(env, controller, a + b) == RouteLenses(env, controller, a) + RouteLenses(env, controller, b)
    decreases |a|
  {
    if a == [] {
      assert a + b == b;
    } else {
      var t := a[1..];
      RouteLensesInActionOrder(env, controller, t, b);
      assert a == [a[0]] + t;
      assert a + b == [a[0]] + (t + b);
      RouteLensesCons(env, controller, a[0], t);
      RouteLensesCons(env, controller, a[0], t + b);
      var head := ActionLenses(env, controller, a[0]);
      calc {
        RouteLenses(env, controller, a + b);
        head + RouteLenses(env, controller, t + b);
        head + (RouteLenses(env, controller, t) + RouteLenses(env, controller, b));
        (head + RouteLenses(env, controller, t)) + RouteLenses(env, controller, b);
        RouteLenses(env, controller, a) + RouteLenses(env, controller, b);
      }
    }
  }

  /** The group lenses a class gets: none unless its name ends in Test. */
  function ClassLenses(env: Env, l: Listener, c: ClassNode): seq<Lens> {
    if IsTestClass(c) then AddTestCodeLens(env, l, c.location, c.constantPath, ClassCommand(env), Group) else []
  }

  /** `on_class_node_enter`: a *Test class gets its group lenses and pushes its
      id; a *Controller class deriving from a *Controller gets route lenses
      for its public actions. For a controller the index lookup comes first
      and `.first` on its nil answer raises NoMethodError; then T.must fails
      for an empty body. */
  function OnClassEnter(env: Env, l: Listener, c: ClassNode): (r: Result<Listener>)
    ensures r.Raised? <==> IsController(c) && (!env.indexed(c) || c.body.None?)
    ensures r.Raised? ==> r.error == (if env.indexed(c) then TypeError else NoMethodError)
    ensures r.Ok? ==> r.value.groupId == l.groupId + (if IsTestClass(c) then 1 else 0)
    ensures r.Ok? ==> r.value.stack == l.stack + (if IsTestClass(c) then [l.groupId] else [])
    ensures r.Ok? ==>
              r.value.lenses == l.lenses + ClassLenses(env, l, c) + (if IsController(c) then RouteLenses(env, c.constantPath, PublicDefs(c.body.value)) else [])
  {
    var groupId := if IsTestClass(c) then l.groupId + 1 else l.groupId;
    var stack := if IsTestClass(c) then l.stack + [l.groupId] else l.stack;
    var lenses := l.lenses + ClassLenses(env, l, c);
    if !IsController(c) then Ok(Listener(groupId, stack, lenses))
    else if !env.indexed(c) then Raised(NoMethodError)
    else match c.body
      case None => Raised(TypeError)
      case Some(body) => Ok(Listener(groupId, stack, lenses + RouteLenses(env, c.constantPath, PublicDefs(body))))
  }

  /** `on_class_node_leave`: leaving a *Test class pops its id. */
  function OnClassLeave(l: Listener, c: ClassNode): (after: Listener)
    ensures after.groupId == l.groupId && after.lenses == l.lenses
    ensures !IsTestClass(c) ==> after.stack == l.stack
    ensures IsTestClass(c) && l.stack != [] ==> after.stack + [Last(l.stack).value] == l.stack
    ensures IsTestClass(c) && l.stack == [] ==> after.stack == []
  {
    if IsTestClass(c) then l.(stack := Pop(l.stack)) else l
  }

  /** `on_def_node_enter`: a method named test_* is a test. It yields lenses
      exactly when its name starts with test_ and the document has a path:
      three example lenses running the method's first line, under the
      innermost open test class. */
  function OnDefEnter(env: Env, l: Listener, d: DefNode): (after: Listener)
    ensures after.groupId == l.groupId && after.stack == l.stack && l.lenses <= after.lenses
    ensures |after.lenses| == |l.lenses| + (if StartsWith(d.name, "test_") && env.path.Some? then 3 else 0)
    ensures forall i :: |l.lenses| <= i < |after.lenses| ==>
              after.lenses[i].arguments == TestArguments(env.path.value, d.name, ExampleCommand(env, d.location.startLine), ZeroBased(d.location))
              && after.lenses[i].grouping == Some(Grouping(Last(l.stack), Example, None))
  {
    if StartsWith(d.name, "test_") then
      l.(lenses := l.lenses + AddTestCodeLens(env, l, d.location, d.name, ExampleCommand(env, d.location.startLine), Example))
    else l
  }

  /** `on_call_node_enter`: a call the test-case helper recognises as a test
      yields three example lenses named by it, running the call's first line. */
  function OnCallEnter(env: Env, l: Listener, call: CallNode): (after: Listener)
    ensures after.groupId == l.groupId && after.stack == l.stack && l.lenses <= after.lenses
    ensures |after.lenses| == |l.lenses| + (if call.testName.Some? && env.path.Some? then 3 else 0)
    ensures forall i :: |l.lenses| <= i < |after.lenses| ==>
              after.lenses[i].arguments == TestArguments(env.path.value, call.testName.value, ExampleCommand(env, call.location.startLine), ZeroBased(call.location))
              && after.lenses[i].grouping == Some(Grouping(Last(l.stack), Example, None))
  {
    match call.testName
    case None => l
    case Some(name) =>
      l.(lenses := l.lenses + AddTestCodeLens(env, l, call.location, name, ExampleCommand(env, call.location.startLine), Example))
  }

  /** One dispatcher callback. The group counter counts *Test classes entered;
      the stack pushes on entering and pops on leaving a *Test class and is
      otherwise untouched; lenses are only appended. Every new test lens is
      grouped under the innermost open test class, and only a group lens
      carries an id, the counter's value before the call. */
  function OnEvent(env: Env, l: Listener, e: Event): (r: Result<Listener>)
    ensures r.Raised? ==> e.ClassEnter? && (r == Raised(TypeError) || r == Raised(NoMethodError))
    ensures r.Ok? ==> r.value.groupId == l.groupId + (if IsTestEnter(e) then 1 else 0)
    ensures r.Ok? && IsTestEnter(e) ==> r.value.stack == l.stack + [l.groupId]
    ensures r.Ok? && e.ClassLeave? && IsTestClass(e.classNode) ==> r.value.stack == Pop(l.stack)
    ensures r.Ok? && !IsTestClassEvent(e) ==> r.value.stack == l.stack
    ensures r.Ok? ==> l.lenses <= r.value.lenses
    ensures r.Ok? ==> forall i :: |l.lenses| <= i < |r.value.lenses| && r.value.lenses[i].grouping.Some? ==>
              env.path.Some?
              && r.value.lenses[i].grouping.value.groupId == Last(l.stack)
              && (r.value.lenses[i].grouping.value.id.Some? <==> r.value.lenses[i].grouping.value.kind == Group)
              && (r.value.lenses[i].grouping.value.id.Some? ==>
                    IsTestEnter(e) && r.value.lenses[i].grouping.value.id.value == l.groupId)
  {
    match e
    case ClassEnter(c) => OnClassEnter(env, l, c)
    case ClassLeave(c) => Ok(OnClassLeave(l, c))
    case DefEnter(d) => Ok(OnDefEnter(env, l, d))
    case CallEnter(call) => Ok(OnCallEnter(env, l, call))
  }

  /** The listener after the dispatcher delivered `events`, or the exception
      that stopped the walk. */
  function Run(env: Env, events: seq<Event>): Result<Listener>
    decreases |events|
  {
    if events == [] then Ok(Initial)
    else match Run(env, events[..|events| - 1])
      case Raised(err) => Raised(err)
      case Ok(l) => OnEvent(env, l, events[|events| - 1])
  }
}
