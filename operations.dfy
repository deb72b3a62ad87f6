/**
 * The operational metadata registry: the stored procedures, triggers and views the
 * "Procedures & Triggers" tab lists. Like the schema it is fixed at start-up. Trigger code,
 * view filters and view calculations are display-only text and are not part of this model.
 */
module Operations {
  import opened Wrappers
  import opened Schema

  /** A stored procedure: its parameter names and its steps, which are documentation only. */
  datatype Procedure = Procedure(name: string, parameters: seq<string>, description: string, steps: seq<string>)

  /** A trigger and the key of the table that owns it. */
  datatype Trigger = Trigger(name: string, table: string, timing: string, description: string)

  /** A view and the keys of the tables it reads. */
  datatype View = View(name: string, description: string, tables: seq<string>)

  const Procedures: seq<Procedure> := [
    Procedure(
      "issue_book", ["book_id", "member_id", "staff_id", "loan_days"],
      "Issues a book to a member",
      [
        "Check if book is available",
        "Check if member is active",
        "Calculate due date",
        "Create loan record",
        "Trigger updates available_copies in books table"
      ]),
    Procedure(
      "return_book", ["loan_id", "staff_id"],
      "Processes a book return",
      [
        "Get loan details",
        "Calculate any fines for late return",
        "Update loan record to returned status",
        "Create fine record if needed",
        "Trigger updates available_copies in books table"
      ]),
    Procedure(
      "search_books", ["title", "author_name", "category_name", "publisher_name", "available_only"],
      "Searches for books based on various criteria",
      [
        "Join multiple tables (books, authors, categories, publishers)",
        "Filter by any provided criteria",
        "Return matching books with related information"
      ]),
    Procedure(
      "renew_loan", ["loan_id", "renewal_days"],
      "Extends the due date for an active loan",
      [
        "Check if loan is active",
        "Calculate new due date",
        "Update loan record with new due date",
        "Add note about renewal"
      ]),
    Procedure(
      "add_book",
      ["isbn", "title", "publisher_id", "publication_date", "edition", "pages", "language", "description",
       "shelf_location", "total_copies", "author_ids", "category_ids"],
      "Adds a new book to the library",
      [
        "Insert book record",
        "Parse author_ids string into individual IDs",
        "Create book-author associations",
        "Parse category_ids string into individual IDs",
        "Create book-category associations"
      ])
  ]

  const Triggers: seq<Trigger> := [
    Trigger("after_loan_insert", "loans", "AFTER INSERT",
      "Decrements the available_copies count when a book is borrowed"),
    Trigger("after_loan_update", "loans", "AFTER UPDATE",
      "Increments the available_copies count when a book is returned")
  ]

  const Views: seq<View> := [
    View("vw_available_books", "Shows all books that are currently available for checkout",
      ["books", "book_authors", "authors", "publishers", "book_categories", "categories"]),
    View("vw_overdue_loans", "Shows all loans that are past their due date and not returned",
      ["loans", "books", "members"]),
    View("vw_book_inventory", "Shows complete inventory information for all books",
      ["books", "book_authors", "authors", "publishers", "book_categories", "categories"])
  ]

  /** `procs.find(p => p.name === name)`: the first procedure with that name, if any. */
  function FindByName(procs: seq<Procedure>, name: string): (r: Option<Procedure>)
    ensures r.Some? ==> r.value in procs && r.value.name == name
    ensures r.None? <==> forall i :: 0 <= i < |procs| ==> procs[i].name != name
    ensures forall i :: 0 <= i < |procs| && procs[i].name == name && (forall j :: 0 <= j < i ==> procs[j].name != name)
              ==> r == Some(procs[i])
    decreases |procs|
  {
    if |procs| == 0 then None
    else if procs[0].name == name then Some(procs[0])
    else
      var r := FindByName(procs[1..], name);
      assert forall i :: 1 <= i < |procs| ==> procs[i] == procs[1..][i - 1];
      r
  }

  /** Procedure names are distinct: they are the React keys of the procedure cards. */
  lemma ProcedureNamesDistinct()
    ensures forall i, j :: 0 <= i < j < |Procedures| ==> Procedures[i].name != Procedures[j].name
  {
  }

  /** No procedure is nameless, so the empty selection names none of them. */
  lemma ProcedureNamesNonEmpty()
    ensures forall i :: 0 <= i < |Procedures| ==> Procedures[i].name != ""
  {
  }

  /** Trigger and view names are distinct too: they are the React keys of their cards. */
  lemma TriggerAndViewNamesDistinct()
    ensures forall i, j :: 0 <= i < j < |Triggers| ==> Triggers[i].name != Triggers[j].name
    ensures forall i, j :: 0 <= i < j < |Views| ==> Views[i].name != Views[j].name
  {
  }

  /** Looking a listed procedure up by its own name finds that very procedure. */
  lemma FindListedProcedure(i: int)
    requires 0 <= i < |Procedures|
    ensures FindByName(Procedures, Procedures[i].name) == Some(Procedures[i])
  {
    ProcedureNamesDistinct();
  }

  /** A name that no procedure has, the empty name included, finds nothing. */
  lemma FindUnlistedProcedure(name: string)
    requires forall i :: 0 <= i < |Procedures| ==> Procedures[i].name != name
    ensures FindByName(Procedures, name) == None
  {
  }

  /** `issue_book` has exactly the four parameters and five steps the registry lists, in order. */
  lemma IssueBookDetails()
    ensures FindByName(Procedures, "issue_book").Some?
    ensures FindByName(Procedures, "issue_book").value.parameters == ["book_id", "member_id", "staff_id", "loan_days"]
    ensures FindByName(Procedures, "issue_book").value.steps == [
              "Check if book is available",
              "Check if member is active",
              "Calculate due date",
              "Create loan record",
              "Trigger updates available_copies in books table"
            ]
  {
    FindListedProcedure(0);
  }

  /** Every trigger belongs to a registered table. */
  lemma TriggerOwnersRegistered()
    ensures forall i :: 0 <= i < |Triggers| ==> Triggers[i].table in TableKeys
  {
  }

  /** Every view reads only registered tables. */
  lemma ViewSourcesRegistered()
    ensures forall i, j :: 0 <= i < |Views| && 0 <= j < |Views[i].tables| ==> Views[i].tables[j] in TableKeys
  {
  }
}
