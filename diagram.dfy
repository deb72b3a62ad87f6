/**
 * What the schema tab and the operations tab show for a given selection: the table nodes, the
 * relationship connectors, the table detail panel and the procedure detail panel. Markup and
 * styling are left out; each view is the data the markup is built from.
 */
module Diagram {
  import opened Wrappers
  import opened Text
  import opened Schema
  import opened Layout
  import opened Operations

  // ---------------------------------------------------------------------------------------
  // Connectors.
  // ---------------------------------------------------------------------------------------

  /** `rel.type.includes('many')`: the connector of a relationship is drawn dashed. */
  predicate IsDashed(rel: Relationship)
  {
    Includes(rel.cardinality, "many")
  }

  /** Both cardinality tags the schema uses contain "many". */
  lemma ManyTagsDashed()
    ensures Includes("many-to-one", "many")
    ensures Includes("one-to-many", "many")
  {
    assert OccursAt("many-to-one", "many", 0) by {
      assert "many-to-one"[0..4] == "many";
    }
    OccursIncludes("many-to-one", "many", 0);
    assert OccursAt("one-to-many", "many", 7) by {
      assert "one-to-many"[7..11] == "many";
    }
    OccursIncludes("one-to-many", "many", 7);
  }

  /** A tag without "many" in it would be drawn solid. */
  lemma OneToOneSolid()
    ensures !Includes("one-to-one", "many")
  {
    var s := "one-to-one";
    assert forall k :: 0 <= k < |s| ==> s[k] != 'm';
    forall i | 0 <= i <= |s| - 4
      ensures !OccursAt(s, "many", i)
    {
      assert s[i..i + 4][0] == s[i];
    }
    IncludesIffOccurs(s, "many");
  }

  /** One connector: the relationship `rel` of the table keyed `source`. */
  datatype Connector = Connector(source: string, target: string, path: Path, dashed: bool)

  /** A connector joins two registered nodes along `getPath` and is dashed, as every relationship here is to-many. */
  predicate Drawn(c: Connector) {
    && c.source in TableKeys
    && c.target in TableKeys
    && c.path == GetPath(c.source, c.target)
    && c.dashed
  }

  /** How many relationships the tables `keys` have between them. */
  function RelCount(keys: seq<string>): nat
    requires forall k :: 0 <= k < |keys| ==> keys[k] in TableKeys
    decreases |keys|
  {
    if |keys| == 0 then 0 else |TableOf(keys[0]).value.relationships| + RelCount(keys[1..])
  }

  /** The connectors of one table: one per relationship, in order, from its node to the target's. */
  function TableConnectors(key: string): (r: seq<Connector>)
    requires key in TableKeys
    ensures |r| == |TableOf(key).value.relationships|
    ensures forall i :: 0 <= i < |r| ==>
              && r[i].source == key
              && r[i].target == TableOf(key).value.relationships[i].to
              && Drawn(r[i])
  {
    var rels := TableOf(key).value.relationships;
    RegisteredTablesWellFormed(key);
    ManyTagsDashed();
    seq(|rels|, i requires 0 <= i < |rels| =>
      Connector(key, rels[i].to, GetPath(key, rels[i].to), IsDashed(rels[i])))
  }

  /** The per-table connector lists of the tables `keys`, the outer `map` over the registry. */
  function ConnectorLists(keys: seq<string>): seq<seq<Connector>>
    requires forall k :: 0 <= k < |keys| ==> keys[k] in TableKeys
  {
    seq(|keys|, n requires 0 <= n < |keys| => TableConnectors(keys[n]))
  }

  /** The lists `xss` one after another, as an array of arrays of elements is rendered. */
  function Flatten<T>(xss: seq<seq<T>>): seq<T>
    decreases |xss|
  {
    if |xss| == 0 then [] else xss[0] + Flatten(xss[1..])
  }

  /** The element `i` of list `n` appears in the flattened lists, at the returned index. */
  lemma {:induction false} FlattenContains<T>(xss: seq<seq<T>>, n: int, i: int) returns (j: int)
    requires 0 <= n < |xss| && 0 <= i < |xss[n]|
    ensures 0 <= j < |Flatten(xss)| && Flatten(xss)[j] == xss[n][i]
    decreases n
  {
    if n == 0 {
      j := i;
    } else {
      assert xss[1..][n - 1] == xss[n];
      var k := FlattenContains(xss[1..], n - 1, i);
      j := |xss[0]| + k;
    }
  }

  /** Every element of the flattened lists is the element `i` of some list `n`. */
  lemma {:induction false} FlattenElement<T>(xss: seq<seq<T>>, j: int) returns (n: int, i: int)
    requires 0 <= j < |Flatten(xss)|
    ensures 0 <= n < |xss| && 0 <= i < |xss[n]| && Flatten(xss)[j] == xss[n][i]
    decreases |xss|
  {
    if j < |xss[0]| {
      n, i := 0, j;
    } else {
      var m, k := FlattenElement(xss[1..], j - |xss[0]|);
      n, i := m + 1, k;
    }
  }

  /** Flattening lists of drawn connectors gives drawn connectors only. */
  lemma {:induction false} FlattenDrawn(xss: seq<seq<Connector>>)
    requires forall n, i :: 0 <= n < |xss| && 0 <= i < |xss[n]| ==> Drawn(xss[n][i])
    ensures forall j :: 0 <= j < |Flatten(xss)| ==> Drawn(Flatten(xss)[j])
  {
    forall j | 0 <= j < |Flatten(xss)|
      ensures Drawn(Flatten(xss)[j])
    {
      var n, i := FlattenElement(xss, j);
    }
  }

  /** There are as many connectors for the tables `keys` as those tables have relationships. */
  lemma {:induction false} ConnectorCount(keys: seq<string>)
    requires forall k :: 0 <= k < |keys| ==> keys[k] in TableKeys
    ensures |Flatten(ConnectorLists(keys))| == RelCount(keys)
    decreases |keys|
  {
    if |keys| > 0 {
      var lists := ConnectorLists(keys);
      assert lists[1..] == ConnectorLists(keys[1..]);
      ConnectorCount(keys[1..]);
    }
  }

  /** `showRelationships && ...`: one connector per relationship of every table, or nothing when hidden. */
  function Connectors(showRelationships: bool): (r: seq<Connector>)
    ensures !showRelationships ==> r == []
    ensures showRelationships ==> |r| == RelCount(TableKeys)
    ensures forall j :: 0 <= j < |r| ==> Drawn(r[j])
  {
    if showRelationships then
      var lists := ConnectorLists(TableKeys);
      FlattenDrawn(lists);
      ConnectorCount(TableKeys);
      Flatten(lists)
    else []
  }

  /** While relationships are shown, each relationship of each table is drawn from that table to its target. */
  lemma EveryRelationshipDrawn(showRelationships: bool, key: string, i: int) returns (j: int)
    requires showRelationships
    requires key in TableKeys && 0 <= i < |TableOf(key).value.relationships|
    ensures 0 <= j < |Connectors(showRelationships)|
    ensures Connectors(showRelationships)[j].source == key
    ensures Connectors(showRelationships)[j].target == TableOf(key).value.relationships[i].to
  {
    var n :| 0 <= n < |TableKeys| && TableKeys[n] == key;
    var lists := ConnectorLists(TableKeys);
    j := FlattenContains(lists, n, i);
    assert Connectors(showRelationships) == Flatten(lists);
  }

  /** Every connector drawn is the relationship `i` of a registered table `key`, drawn from it to its target. */
  lemma ConnectorIsRelationship(showRelationships: bool, j: int) returns (key: string, i: int)
    requires 0 <= j < |Connectors(showRelationships)|
    ensures key in TableKeys && 0 <= i < |TableOf(key).value.relationships|
    ensures Connectors(showRelationships)[j].source == key
    ensures Connectors(showRelationships)[j].target == TableOf(key).value.relationships[i].to
  {
    var lists := ConnectorLists(TableKeys);
    assert Connectors(showRelationships) == Flatten(lists);
    var n;
    n, i := FlattenElement(lists, j);
    key := TableKeys[n];
  }

  // ---------------------------------------------------------------------------------------
  // Nodes.
  // ---------------------------------------------------------------------------------------

  /** One table node: its key, caption, centre, fill class and whether it is outlined as selected. */
  datatype Node = Node(key: string, caption: string, centre: Point, fill: string, selected: bool)

  /** The nodes, one per `Object.entries(tables)` entry, placed by `getPosition(key, index)`. */
  function Nodes(activeTable: Option<string>): (r: seq<Node>)
    ensures |r| == |TableKeys|
    ensures forall i :: 0 <= i < |r| ==> r[i].key == TableKeys[i] && Some(r[i].centre) == FixedPosition(TableKeys[i])
    ensures forall i :: 0 <= i < |r| ==> (r[i].selected <==> activeTable == Some(TableKeys[i]))
  {
    EntriesAgree();
    seq(|TableKeys|, i requires 0 <= i < |TableKeys| =>
      var key := TableKeys[i];
      Node(key, Tables[i].name, GetPosition(key, Some(i)), Colour(TableType(key).value), activeTable == Some(key)))
  }

  /** At most one node is outlined, and one is exactly when the selection is a registered table. */
  lemma SelectedNode(activeTable: Option<string>)
    ensures forall i, j :: 0 <= i < j < |Nodes(activeTable)| ==> !(Nodes(activeTable)[i].selected && Nodes(activeTable)[j].selected)
    ensures (exists i :: 0 <= i < |Nodes(activeTable)| && Nodes(activeTable)[i].selected)
            <==> activeTable.Some? && activeTable.value in TableKeys
  {
    TableKeysDistinct();
    if activeTable.Some? && activeTable.value in TableKeys {
      var i :| 0 <= i < |TableKeys| && TableKeys[i] == activeTable.value;
      assert Nodes(activeTable)[i].selected;
    }
  }

  // ---------------------------------------------------------------------------------------
  // The table detail panel.
  // ---------------------------------------------------------------------------------------

  /** One relationship line of the panel: "<type> relationship with <label>< via ...>", the label a link to `target`. */
  datatype Link = Link(cardinality: string, caption: string, target: string, via: string)

  /** `tables[rel.to]?.name || rel.to`. */
  function LinkLabel(rel: Relationship): string
  {
    match TableOf(rel.to)
    case Some(t) => if t.name != "" then t.name else rel.to
    case None => rel.to
  }

  /** `` rel.via ? ` via ${rel.via}` : '' ``: empty exactly when the relationship names no joining column. */
  function ViaText(rel: Relationship): string
  {
    if rel.via != "" then " via " + rel.via else ""
  }

  /** Every relationship of the registry names its joining column, so every link line ends in " via <column>". */
  lemma LinksCarryVia(key: string)
    requires key in TableKeys
    ensures forall i :: 0 <= i < |TableDetails(Some(key)).links| ==>
              TableDetails(Some(key)).links[i].via == " via " + TableOf(key).value.relationships[i].via
              && TableOf(key).value.relationships[i].via != ""
  {
    RegisteredTablesWellFormed(key);
  }

  /** What `getTableDetails()` produces: nothing, a panel, or a TypeError from reading `undefined.name`. */
  datatype TablePanel =
    | NoTablePanel
    | TypeError
    | Panel(title: string, primaryKey: string, columns: seq<Column>, links: seq<Link>)

  /** `getTableDetails()` for the selection `activeTable` (None is `null`). */
  function TableDetails(activeTable: Option<string>): (r: TablePanel)
    ensures r.NoTablePanel? <==> activeTable.None? || activeTable.value == ""
    ensures r.Panel? <==> activeTable.Some? && activeTable.value in TableKeys
    ensures r.Panel? ==>
              var t := TableOf(activeTable.value).value;
              && r.title == t.name + " Table"
              && r.primaryKey == PrimaryKeyText(t)
              && r.columns == t.columns
              && |r.links| == |t.relationships|
              && forall i :: 0 <= i < |r.links| ==> r.links[i].target == t.relationships[i].to && r.links[i].target in TableKeys
  {
    if activeTable.None? || activeTable.value == "" then NoTablePanel
    else
      match TableOf(activeTable.value)
      case None => TypeError
      case Some(t) =>
        RegisteredTablesWellFormed(activeTable.value);
        var links := seq(|t.relationships|, i requires 0 <= i < |t.relationships| =>
          var rel := t.relationships[i];
          Link(rel.cardinality, LinkLabel(rel), rel.to, ViaText(rel)));
        Panel(t.name + " Table", PrimaryKeyText(t), t.columns, links)
  }

  /** Every registered table has a display name. */
  lemma TableNamesNonEmpty(key: string)
    requires key in TableKeys
    ensures TableOf(key).value.name != ""
  {
  }

  /** On a registered table's panel every link is labelled with its target's display name. */
  lemma LinksNameTheirTargets(key: string)
    requires key in TableKeys
    ensures forall i :: 0 <= i < |TableDetails(Some(key)).links| ==>
              TableDetails(Some(key)).links[i].caption == TableOf(TableDetails(Some(key)).links[i].target).value.name
  {
    RegisteredTablesWellFormed(key);
    var t := TableOf(key).value;
    forall i | 0 <= i < |t.relationships|
      ensures LinkLabel(t.relationships[i]) == TableOf(t.relationships[i].to).value.name
    {
      TableNamesNonEmpty(t.relationships[i].to);
    }
  }

  /** The outlined node and the panel show the same table. */
  lemma SelectedNodeHasPanel(activeTable: Option<string>, i: int)
    requires 0 <= i < |TableKeys| && Nodes(activeTable)[i].selected
    ensures TableDetails(activeTable).Panel?
    ensures TableDetails(activeTable).title == Nodes(activeTable)[i].caption + " Table"
  {
    EntriesAgree();
  }

  // ---------------------------------------------------------------------------------------
  // The procedure detail panel.
  // ---------------------------------------------------------------------------------------

  /** `getProcedureDetails()`: the procedure named by the selection, or no panel. */
  function ProcedureDetails(activeProcedure: Option<string>): (r: Option<Procedure>)
    ensures r.Some? ==> activeProcedure == Some(r.value.name) && r.value in Procedures
    ensures r.None? <==> activeProcedure.None? || forall i :: 0 <= i < |Procedures| ==> Procedures[i].name != activeProcedure.value
  {
    ProcedureNamesNonEmpty();
    if activeProcedure.None? || activeProcedure.value == "" then None
    else FindByName(Procedures, activeProcedure.value)
  }

  /** Selecting a listed procedure's card shows that procedure. */
  lemma CardShowsItsProcedure(i: int)
    requires 0 <= i < |Procedures|
    ensures ProcedureDetails(Some(Procedures[i].name)) == Some(Procedures[i])
  {
    FindListedProcedure(i);
  }
}
