/**
 * The selection state of the visualizer: which tab is open, which table or procedure is
 * selected, and whether relationship connectors are shown. The page keeps these in four
 * React state cells and changes them only through the click handlers; `Visualizer` holds the
 * four cells and its methods are those handlers. The pure functions over `UiState` are their
 * specification, and the events of `Event` are the controls the page actually offers, which
 * is what keeps a selected table always registered.
 */
module Selection {
  import opened Wrappers
  import opened Schema
  import opened Operations
  import opened Diagram

  datatype Tab = SchemaTab | OperationsTab | WorkflowTab

  /** The four state cells; `None` is `null`. */
  datatype UiState = UiState(tab: Tab, activeTable: Option<string>, activeProcedure: Option<string>, showRelationships: bool)

  /** The schema tab, with the books table selected, no procedure, and relationships shown. */
  const Initial: UiState := UiState(SchemaTab, Some("books"), None, true)

  /** A table and a procedure are never selected at once. */
  predicate Exclusive(s: UiState)
  {
    s.activeTable.None? || s.activeProcedure.None?
  }

  // ---------------------------------------------------------------------------------------
  // The handlers, as functions on the state.
  // ---------------------------------------------------------------------------------------

  /** `handleTableClick(name)`: select the table, clear the procedure. */
  function SelectTable(s: UiState, name: string): UiState
  {
    s.(activeTable := Some(name), activeProcedure := None)
  }

  /** `handleProcedureClick(name)`: select the procedure, clear the table. */
  function SelectProcedure(s: UiState, name: string): UiState
  {
    s.(activeProcedure := Some(name), activeTable := None)
  }

  /** The "Hide/Show Relationships" button. */
  function Toggle(s: UiState): UiState
  {
    s.(showRelationships := !s.showRelationships)
  }

  /** A tab button. */
  function SetTab(s: UiState, t: Tab): UiState
  {
    s.(tab := t)
  }

  /** Selecting a table selects exactly that table and nothing else, and keeps tab and visibility. */
  lemma SelectTableEffect(s: UiState, name: string)
    ensures Exclusive(SelectTable(s, name))
    ensures SelectTable(s, name).activeTable == Some(name) && SelectTable(s, name).activeProcedure.None?
    ensures SelectTable(s, name).tab == s.tab && SelectTable(s, name).showRelationships == s.showRelationships
  {
  }

  /** Selecting a procedure selects exactly that procedure, and keeps tab and visibility. */
  lemma SelectProcedureEffect(s: UiState, name: string)
    ensures Exclusive(SelectProcedure(s, name))
    ensures SelectProcedure(s, name).activeProcedure == Some(name) && SelectProcedure(s, name).activeTable.None?
    ensures SelectProcedure(s, name).tab == s.tab && SelectProcedure(s, name).showRelationships == s.showRelationships
  {
  }

  /** The toggle flips only the flag, and toggling twice restores the state. */
  lemma ToggleEffect(s: UiState)
    ensures Toggle(s).showRelationships != s.showRelationships
    ensures Toggle(s).(showRelationships := s.showRelationships) == s
    ensures Toggle(Toggle(s)) == s
  {
  }

  /** A tab switch changes only the tab; pressing the open tab's button changes nothing. */
  lemma SetTabEffect(s: UiState, t: Tab)
    ensures SetTab(s, t).tab == t
    ensures SetTab(s, t).(tab := s.tab) == s
    ensures SetTab(s, s.tab) == s
  {
  }

  // ---------------------------------------------------------------------------------------
  // The controls the page offers, and the reachable states.
  // ---------------------------------------------------------------------------------------

  /**
   * A user action: a tab button, the relationships button, a dropdown option, a table node,
   * the link of the `index`-th relationship in the table panel, or the `index`-th procedure card.
   */
  datatype Event =
    | TabButton(target: Tab)
    | ToggleButton
    | TableOption(value: string)
    | NodeClick(key: string)
    | RelationshipLink(index: nat)
    | ProcedureCard(index: nat)

  /** Whether the page shows the control of `e` in state `s`. */
  predicate Offered(s: UiState, e: Event)
  {
    match e
    case TabButton(_) => true
    case ToggleButton => s.tab == SchemaTab
    case TableOption(v) => s.tab == SchemaTab && (v == "" || v in TableKeys)
    case NodeClick(k) => s.tab == SchemaTab && k in TableKeys
    case RelationshipLink(i) =>
      s.tab == SchemaTab && TableDetails(s.activeTable).Panel? && i < |TableDetails(s.activeTable).links|
    case ProcedureCard(i) => s.tab == OperationsTab && i < |Procedures|
  }

  /** The handler the control of `e` calls. */
  function Apply(s: UiState, e: Event): UiState
    requires Offered(s, e)
  {
    match e
    case TabButton(t) => SetTab(s, t)
    case ToggleButton => Toggle(s)
    case TableOption(v) => SelectTable(s, v)
    case NodeClick(k) => SelectTable(s, k)
    case RelationshipLink(i) => SelectTable(s, TableDetails(s.activeTable).links[i].target)
    case ProcedureCard(i) => SelectProcedure(s, Procedures[i].name)
  }

  /** Every event of `es` is offered in the state the previous ones lead to. */
  predicate Admissible(s: UiState, es: seq<Event>)
    decreases |es|
  {
    |es| == 0 || (Offered(s, es[0]) && Admissible(Apply(s, es[0]), es[1..]))
  }

  /** The state after the events `es`. */
  function Run(s: UiState, es: seq<Event>): UiState
    requires Admissible(s, es)
    decreases |es|
  {
    if |es| == 0 then s else Run(Apply(s, es[0]), es[1..])
  }

  /**
   * The invariant of the page: the selection is exclusive, a selected table is the empty
   * dropdown option or a registered key, and a selected procedure is a listed one.
   */
  predicate Consistent(s: UiState)
  {
    && Exclusive(s)
    && (s.activeTable.None? || s.activeTable.value == "" || s.activeTable.value in TableKeys)
    && (s.activeProcedure.None? || FindByName(Procedures, s.activeProcedure.value).Some?)
  }

  lemma InitialConsistent()
    ensures Consistent(Initial)
  {
  }

  /** Every offered event keeps the invariant. */
  lemma ApplyKeepsConsistent(s: UiState, e: Event)
    requires Consistent(s) && Offered(s, e)
    ensures Consistent(Apply(s, e))
  {
    match e
    case RelationshipLink(i) =>
      assert TableDetails(s.activeTable).links[i].target in TableKeys;
    case ProcedureCard(i) =>
      FindListedProcedure(i);
    case _ =>
  }

  /** Hence so does every admissible run. */
  lemma {:induction false} RunKeepsConsistent(s: UiState, es: seq<Event>)
    requires Consistent(s) && Admissible(s, es)
    ensures Consistent(Run(s, es))
    decreases |es|
  {
    if |es| > 0 {
      ApplyKeepsConsistent(s, es[0]);
      RunKeepsConsistent(Apply(s, es[0]), es[1..]);
    }
  }

  /**
   * In every state the page can reach, the table panel never reads a missing table, and a
   * selected procedure always has its panel.
   */
  lemma ReachablePanels(es: seq<Event>)
    requires Admissible(Initial, es)
    ensures Exclusive(Run(Initial, es))
    ensures !TableDetails(Run(Initial, es).activeTable).TypeError?
    ensures Run(Initial, es).activeProcedure.Some? ==> ProcedureDetails(Run(Initial, es).activeProcedure).Some?
  {
    InitialConsistent();
    RunKeepsConsistent(Initial, es);
  }

  /** The guarantee rests on the controls: a table click with an unregistered key would crash the panel. */
  lemma UnregisteredSelectionFails()
    ensures TableDetails(SelectTable(Initial, "loan").activeTable).TypeError?
  {
  }

  /** From the start page, the first relationship link of the books panel selects the publishers table. */
  lemma FollowFirstLink()
    ensures Admissible(Initial, [RelationshipLink(0)])
    ensures Run(Initial, [RelationshipLink(0)]).activeTable == Some("publishers")
  {
    assert TableOf("books") == Some(BooksTable);
    assert BooksTable.relationships[0].to == "publishers";
    assert Offered(Initial, RelationshipLink(0));
  }

  // ---------------------------------------------------------------------------------------
  // The four state cells and their handlers.
  // ---------------------------------------------------------------------------------------

  class Visualizer {
    var activeTab: Tab
    var activeTable: Option<string>
    var activeProcedure: Option<string>
    var showRelationships: bool

    /** The four cells as one value. */
    function State(): UiState
      reads this
    {
      UiState(activeTab, activeTable, activeProcedure, showRelationships)
    }

    predicate Valid()
      reads this
    {
      Consistent(State())
    }

    /** The initial values of the four `useState` calls. */
    constructor ()
      ensures State() == Initial && Valid()
    {
      activeTab := SchemaTab;
      activeTable := Some("books");
      activeProcedure := None;
      showRelationships := true;
    }

    /** `handleTableClick`. */
    method HandleTableClick(tableName: string)
      modifies this
      ensures State() == SelectTable(old(State()), tableName)
      ensures activeTable == Some(tableName) && activeProcedure.None?
    {
      activeTable := Some(tableName);
      activeProcedure := None;
    }

    /** `handleProcedureClick`. */
    method HandleProcedureClick(procedureName: string)
      modifies this
      ensures State() == SelectProcedure(old(State()), procedureName)
      ensures activeProcedure == Some(procedureName) && activeTable.None?
    {
      activeProcedure := Some(procedureName);
      activeTable := None;
    }

    /** `setShowRelationships(!showRelationships)`. */
    method ToggleRelationships()
      modifies this
      ensures State() == Toggle(old(State()))
      ensures old(Valid()) ==> Valid()
    {
      showRelationships := !showRelationships;
    }

    /** `setActiveTab(tab)`. */
    method SetActiveTab(tab: Tab)
      modifies this
      ensures State() == SetTab(old(State()), tab)
      ensures old(Valid()) ==> Valid()
    {
      activeTab := tab;
    }

    /** Dispatch a user action to its handler; the invariant is kept. */
    method Dispatch(e: Event)
      requires Valid() && Offered(State(), e)
      modifies this
      ensures State() == Apply(old(State()), e)
      ensures Valid()
    {
      ApplyKeepsConsistent(State(), e);
      match e
      case TabButton(t) => SetActiveTab(t);
      case ToggleButton => ToggleRelationships();
      case TableOption(v) => HandleTableClick(v);
      case NodeClick(k) => HandleTableClick(k);
      case RelationshipLink(i) => HandleTableClick(TableDetails(activeTable).links[i].target);
      case ProcedureCard(i) => HandleProcedureClick(Procedures[i].name);
    }
  }
}
