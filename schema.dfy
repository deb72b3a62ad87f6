/**
 * The schema registry of the library database visualizer: the thirteen tables with their
 * columns, primary keys and relationships, and the colour category of each table. It is
 * built once, never changes, and is never checked by the program that displays it; the
 * integrity facts it has to satisfy are stated and proved at the end of this module.
 */
module Schema {
  import opened Wrappers
  import opened Text

  /** One column of a table; `sqlType` is the SQL type exactly as displayed ("INT", "VARCHAR(20)", ...). */
  datatype Column = Column(name: string, sqlType: string, description: string)

  /** A relationship to the table keyed `to`, with its cardinality tag and the joining column. */
  datatype Relationship = Relationship(to: string, cardinality: string, via: string)

  /**
   * A table: display name, the columns of its primary key (one, or several for a composite key),
   * its columns and its relationships.
   */
  datatype Table = Table(name: string, primaryKey: seq<string>, columns: seq<Column>, relationships: seq<Relationship>)

  /** The colour category of a table in the diagram. */
  datatype Category = Core | Junction | Transaction | Reference | EventRelated

  // ---------------------------------------------------------------------------------------
  // The tables, in the order the object literal declares them.
  // ---------------------------------------------------------------------------------------

  const BooksTable := Table(
    "Books", ["book_id"],
    [
      Column("book_id", "INT", "Primary key - unique identifier for each book"),
      Column("isbn", "VARCHAR(20)", "International Standard Book Number - unique identifier in publishing"),
      Column("title", "VARCHAR(255)", "Book title"),
      Column("publisher_id", "INT", "Foreign key to publishers table"),
      Column("publication_date", "DATE", "Date when the book was published"),
      Column("total_copies", "INT", "Total number of copies owned by the library"),
      Column("available_copies", "INT", "Number of copies currently available for checkout")
    ],
    [
      Relationship("publishers", "many-to-one", "publisher_id"),
      Relationship("book_authors", "one-to-many", "book_id"),
      Relationship("book_categories", "one-to-many", "book_id"),
      Relationship("loans", "one-to-many", "book_id"),
      Relationship("reservations", "one-to-many", "book_id")
    ])

  const AuthorsTable := Table(
    "Authors", ["author_id"],
    [
      Column("author_id", "INT", "Primary key - unique identifier for each author"),
      Column("first_name", "VARCHAR(50)", "Author's first name"),
      Column("last_name", "VARCHAR(50)", "Author's last name"),
      Column("birth_date", "DATE", "Author's date of birth"),
      Column("nationality", "VARCHAR(50)", "Author's nationality")
    ],
    [
      Relationship("book_authors", "one-to-many", "author_id")
    ])

  const BookAuthorsTable := Table(
    "Book_Authors", ["book_id", "author_id"],
    [
      Column("book_id", "INT", "Part of composite primary key and foreign key to books table"),
      Column("author_id", "INT", "Part of composite primary key and foreign key to authors table")
    ],
    [
      Relationship("books", "many-to-one", "book_id"),
      Relationship("authors", "many-to-one", "author_id")
    ])

  const PublishersTable := Table(
    "Publishers", ["publisher_id"],
    [
      Column("publisher_id", "INT", "Primary key - unique identifier for each publisher"),
      Column("name", "VARCHAR(100)", "Publisher name"),
      Column("address", "TEXT", "Publisher address"),
      Column("phone", "VARCHAR(20)", "Publisher phone number"),
      Column("email", "VARCHAR(100)", "Publisher email")
    ],
    [
      Relationship("books", "one-to-many", "publisher_id")
    ])

  const CategoriesTable := Table(
    "Categories", ["category_id"],
    [
      Column("category_id", "INT", "Primary key - unique identifier for each category"),
      Column("name", "VARCHAR(50)", "Category name (e.g. Fiction, Science, History)"),
      Column("description", "TEXT", "Category description")
    ],
    [
      Relationship("book_categories", "one-to-many", "category_id")
    ])

  const BookCategoriesTable := Table(
    "Book_Categories", ["book_id", "category_id"],
    [
      Column("book_id", "INT", "Part of composite primary key and foreign key to books table"),
      Column("category_id", "INT", "Part of composite primary key and foreign key to categories table")
    ],
    [
      Relationship("books", "many-to-one", "book_id"),
      Relationship("categories", "many-to-one", "category_id")
    ])

  const MembersTable := Table(
    "Members", ["member_id"],
    [
      Column("member_id", "INT", "Primary key - unique identifier for each member"),
      Column("first_name", "VARCHAR(50)", "Member's first name"),
      Column("last_name", "VARCHAR(50)", "Member's last name"),
      Column("email", "VARCHAR(100)", "Member's email address"),
      Column("membership_date", "DATE", "Date when membership started"),
      Column("membership_expiry", "DATE", "Date when membership expires"),
      Column("membership_status", "ENUM", "Status: Active, Expired, or Suspended")
    ],
    [
      Relationship("loans", "one-to-many", "member_id"),
      Relationship("reservations", "one-to-many", "member_id"),
      Relationship("event_attendees", "one-to-many", "member_id"),
      Relationship("fines", "one-to-many", "member_id")
    ])

  const StaffTable := Table(
    "Staff", ["staff_id"],
    [
      Column("staff_id", "INT", "Primary key - unique identifier for each staff member"),
      Column("first_name", "VARCHAR(50)", "Staff member's first name"),
      Column("last_name", "VARCHAR(50)", "Staff member's last name"),
      Column("position", "VARCHAR(50)", "Job title or position"),
      Column("is_admin", "BOOLEAN", "Whether the staff member has administrative privileges")
    ],
    [
      Relationship("loans", "one-to-many", "issued_by_staff_id"),
      Relationship("loans", "one-to-many", "received_by_staff_id"),
      Relationship("fines", "one-to-many", "collected_by_staff_id"),
      Relationship("events", "one-to-many", "organized_by_staff_id")
    ])

  const LoansTable := Table(
    "Loans", ["loan_id"],
    [
      Column("loan_id", "INT", "Primary key - unique identifier for each loan"),
      Column("book_id", "INT", "Foreign key to books table"),
      Column("member_id", "INT", "Foreign key to members table"),
      Column("loan_date", "DATE", "Date when the book was borrowed"),
      Column("due_date", "DATE", "Date when the book is due to be returned"),
      Column("return_date", "DATE", "Date when the book was actually returned (NULL if not returned)"),
      Column("returned", "BOOLEAN", "Whether the book has been returned"),
      Column("loan_status", "ENUM", "Status: Active, Returned, Overdue, or Lost"),
      Column("issued_by_staff_id", "INT", "Foreign key to staff table - who issued the book"),
      Column("received_by_staff_id", "INT", "Foreign key to staff table - who received the return"),
      Column("fine_amount", "DECIMAL", "Amount of fine for late return (if any)")
    ],
    [
      Relationship("books", "many-to-one", "book_id"),
      Relationship("members", "many-to-one", "member_id"),
      Relationship("staff", "many-to-one", "issued_by_staff_id"),
      Relationship("staff", "many-to-one", "received_by_staff_id"),
      Relationship("fines", "one-to-many", "loan_id")
    ])

  const ReservationsTable := Table(
    "Reservations", ["reservation_id"],
    [
      Column("reservation_id", "INT", "Primary key - unique identifier for each reservation"),
      Column("book_id", "INT", "Foreign key to books table"),
      Column("member_id", "INT", "Foreign key to members table"),
      Column("reservation_date", "TIMESTAMP", "Date and time when the reservation was made"),
      Column("expiry_date", "DATE", "Date when the reservation expires"),
      Column("status", "ENUM", "Status: Pending, Fulfilled, Cancelled, or Expired")
    ],
    [
      Relationship("books", "many-to-one", "book_id"),
      Relationship("members", "many-to-one", "member_id")
    ])

  const FinesTable := Table(
    "Fines", ["fine_id"],
    [
      Column("fine_id", "INT", "Primary key - unique identifier for each fine"),
      Column("loan_id", "INT", "Foreign key to loans table"),
      Column("member_id", "INT", "Foreign key to members table"),
      Column("fine_amount", "DECIMAL", "Amount of the fine"),
      Column("reason", "TEXT", "Reason for the fine"),
      Column("issue_date", "DATE", "Date when the fine was issued"),
      Column("payment_date", "DATE", "Date when the fine was paid (NULL if not paid)"),
      Column("paid", "BOOLEAN", "Whether the fine has been paid"),
      Column("collected_by_staff_id", "INT", "Foreign key to staff table - who collected the payment")
    ],
    [
      Relationship("loans", "many-to-one", "loan_id"),
      Relationship("members", "many-to-one", "member_id"),
      Relationship("staff", "many-to-one", "collected_by_staff_id")
    ])

  const EventsTable := Table(
    "Events", ["event_id"],
    [
      Column("event_id", "INT", "Primary key - unique identifier for each event"),
      Column("title", "VARCHAR(255)", "Event title"),
      Column("description", "TEXT", "Event description"),
      Column("start_date", "DATE", "Date when the event starts"),
      Column("start_time", "TIME", "Time when the event starts"),
      Column("end_date", "DATE", "Date when the event ends"),
      Column("end_time", "TIME", "Time when the event ends"),
      Column("location", "VARCHAR(100)", "Event location"),
      Column("max_attendees", "INT", "Maximum number of attendees allowed"),
      Column("organized_by_staff_id", "INT", "Foreign key to staff table - who organized the event")
    ],
    [
      Relationship("staff", "many-to-one", "organized_by_staff_id"),
      Relationship("event_attendees", "one-to-many", "event_id")
    ])

  const EventAttendeesTable := Table(
    "Event_Attendees", ["event_id", "member_id"],
    [
      Column("event_id", "INT", "Part of composite primary key and foreign key to events table"),
      Column("member_id", "INT", "Part of composite primary key and foreign key to members table"),
      Column("registration_date", "TIMESTAMP", "Date and time when the member registered for the event"),
      Column("attended", "BOOLEAN", "Whether the member actually attended the event")
    ],
    [
      Relationship("events", "many-to-one", "event_id"),
      Relationship("members", "many-to-one", "member_id")
    ])

  /** `Object.keys(tables)`: the table keys in declaration order (the dropdown and the diagram use this order). */
  const TableKeys: seq<string> := [
    "books",
    "authors",
    "book_authors",
    "publishers",
    "categories",
    "book_categories",
    "members",
    "staff",
    "loans",
    "reservations",
    "fines",
    "events",
    "event_attendees"
  ]

  /** `Object.values(tables)`, in the same order as `TableKeys`. */
  const Tables: seq<Table> := [
    BooksTable,
    AuthorsTable,
    BookAuthorsTable,
    PublishersTable,
    CategoriesTable,
    BookCategoriesTable,
    MembersTable,
    StaffTable,
    LoansTable,
    ReservationsTable,
    FinesTable,
    EventsTable,
    EventAttendeesTable
  ]

  /** `tables[key]`: the table registered under `key`, if any. */
  function TableOf(key: string): (r: Option<Table>)
    ensures r.Some? <==> key in TableKeys
  {
    match key
    case "books" => Some(BooksTable)
    case "authors" => Some(AuthorsTable)
    case "book_authors" => Some(BookAuthorsTable)
    case "publishers" => Some(PublishersTable)
    case "categories" => Some(CategoriesTable)
    case "book_categories" => Some(BookCategoriesTable)
    case "members" => Some(MembersTable)
    case "staff" => Some(StaffTable)
    case "loans" => Some(LoansTable)
    case "reservations" => Some(ReservationsTable)
    case "fines" => Some(FinesTable)
    case "events" => Some(EventsTable)
    case "event_attendees" => Some(EventAttendeesTable)
    case _ => None
  }

  /** `colors[...]`: the fill class of each category. */
  function Colour(c: Category): string
  {
    match c
    case Core => "bg-blue-600"
    case Junction => "bg-purple-600"
    case Transaction => "bg-green-600"
    case Reference => "bg-yellow-600"
    case EventRelated => "bg-red-600"
  }

  /** `tableTypes[key]`: the colour category of a table; exactly the registered tables have one. */
  function TableType(key: string): (r: Option<Category>)
    ensures r.Some? <==> key in TableKeys
  {
    match key
    case "books" => Some(Core)
    case "authors" => Some(Core)
    case "publishers" => Some(Reference)
    case "categories" => Some(Reference)
    case "book_authors" => Some(Junction)
    case "book_categories" => Some(Junction)
    case "members" => Some(Core)
    case "staff" => Some(Core)
    case "loans" => Some(Transaction)
    case "reservations" => Some(Transaction)
    case "fines" => Some(Transaction)
    case "events" => Some(EventRelated)
    case "event_attendees" => Some(Junction)
    case _ => None
  }

  /** The legend can tell the categories apart: no two share a fill class. */
  lemma ColoursDistinct(c: Category, d: Category)
    ensures Colour(c) == Colour(d) <==> c == d
  {
  }

  /** The junction tables are exactly the tables whose primary key is composite. */
  lemma JunctionsHaveCompositeKeys(key: string)
    requires key in TableKeys
    ensures TableType(key) == Some(Junction) <==> |TableOf(key).value.primaryKey| > 1
  {
  }

  /** The keys and the values line up: `Object.entries(tables)` pairs `TableKeys[i]` with `Tables[i]`. */
  lemma EntriesAgree()
    ensures |Tables| == |TableKeys|
    ensures forall i :: 0 <= i < |TableKeys| ==> TableOf(TableKeys[i]) == Some(Tables[i])
  {
  }

  /** The object keys are distinct (an object literal cannot repeat a key). */
  lemma TableKeysDistinct()
    ensures forall i, j :: 0 <= i < j < |TableKeys| ==> TableKeys[i] != TableKeys[j]
  {
  }

  // ---------------------------------------------------------------------------------------
  // The primary key as the detail panel prints it ("Primary Key: book_id, author_id").
  // ---------------------------------------------------------------------------------------

  /** How the source writes a primary key over the columns `names`: "book_id" or "book_id, author_id". */
  function KeyText(names: seq<string>): string
    decreases |names|
  {
    if |names| == 0 then ""
    else if |names| == 1 then names[0]
    else names[0] + ", " + KeyText(names[1..])
  }

  /** The primary-key text shown for a table. */
  function PrimaryKeyText(t: Table): string
  {
    KeyText(t.primaryKey)
  }

  /** The column names listed in a primary-key text: its comma-separated parts, leading spaces dropped. */
  function KeyColumns(text: string): (names: seq<string>)
    ensures |names| == |Split(text, ',')|
  {
    var parts := Split(text, ',');
    seq(|parts|, k requires 0 <= k < |parts| => TrimStart(parts[k]))
  }

  /** A name that can stand in a key list: non-empty, no comma, no leading space. */
  predicate IsPlainName(s: string)
  {
    |s| > 0 && s[0] != ' ' && ',' !in s
  }

  /** Splitting a key text on commas gives the names back, each but the first after its one space. */
  lemma {:induction false} SplitKeyText(names: seq<string>)
    requires |names| >= 1 && forall k :: 0 <= k < |names| ==> IsPlainName(names[k])
    ensures |Split(KeyText(names), ',')| == |names|
    ensures Split(KeyText(names), ',')[0] == names[0]
    ensures forall k :: 1 <= k < |names| ==> Split(KeyText(names), ',')[k] == [' '] + names[k]
    decreases |names|
  {
    if |names| == 1 {
      SplitWithout(names[0], ',');
    } else {
      var tail := names[1..];
      var x := KeyText(tail);
      SplitKeyText(tail);
      assert KeyText(names) == names[0] + [','] + ([' '] + x);
      SplitAround(names[0], [' '] + x, ',');
      assert ([' '] + x)[1..] == x;
      assert Split([' '] + x, ',') == [[' '] + Split(x, ',')[0]] + Split(x, ',')[1..];
    }
  }

  /** Reading the columns back out of a key text gives exactly the columns it was written from. */
  lemma KeyColumnsOfKeyText(names: seq<string>)
    requires |names| >= 1 && forall k :: 0 <= k < |names| ==> IsPlainName(names[k])
    ensures KeyColumns(KeyText(names)) == names
  {
    SplitKeyText(names);
    var parts := Split(KeyText(names), ',');
    forall k | 0 <= k < |names|
      ensures TrimStart(parts[k]) == names[k]
    {
      if k == 0 {
        TrimStartUnspaced(names[k]);
      } else {
        TrimStartOneSpace(names[k]);
      }
    }
  }

  /** The composite keys print exactly as the source writes them. */
  lemma CompositeKeyTexts()
    ensures PrimaryKeyText(BookAuthorsTable) == "book_id, author_id"
    ensures PrimaryKeyText(BookCategoriesTable) == "book_id, category_id"
    ensures PrimaryKeyText(EventAttendeesTable) == "event_id, member_id"
  {
  }

  // ---------------------------------------------------------------------------------------
  // Integrity of the table registry. The source never checks any of this; the detail panel
  // and the diagram rely on it (a dangling relationship target would be dereferenced as
  // `undefined`, a repeated column name would repeat a React key).
  // ---------------------------------------------------------------------------------------

  /** `t` has a column called `name`. */
  predicate HasColumn(t: Table, name: string)
  {
    exists i :: 0 <= i < |t.columns| && t.columns[i].name == name
  }

  /** Column names within the table are pairwise distinct: they are the React keys of the column rows. */
  predicate ColumnsUnique(t: Table)
  {
    forall i, j :: 0 <= i < j < |t.columns| ==> t.columns[i].name != t.columns[j].name
  }

  /** The primary key lists at least one column, each a plain name and a column of the table. */
  predicate PrimaryKeyIsColumns(t: Table)
  {
    && |t.primaryKey| >= 1
    && forall k :: 0 <= k < |t.primaryKey| ==> IsPlainName(t.primaryKey[k]) && HasColumn(t, t.primaryKey[k])
  }

  /** Every relationship names a registered table. */
  predicate TargetsRegistered(t: Table)
  {
    forall i :: 0 <= i < |t.relationships| ==> t.relationships[i].to in TableKeys
  }

  /** Every cardinality tag is one of the two the schema uses. */
  predicate CardinalitiesKnown(t: Table)
  {
    forall i :: 0 <= i < |t.relationships| ==>
      t.relationships[i].cardinality == "many-to-one" || t.relationships[i].cardinality == "one-to-many"
  }

  /** Every relationship names the column it joins on. */
  predicate JoinsNamed(t: Table)
  {
    forall i :: 0 <= i < |t.relationships| ==> t.relationships[i].via != ""
  }

  /** The integrity a table must have for the detail panel and the diagram to work on it. */
  predicate WellFormed(t: Table)
  {
    ColumnsUnique(t) && PrimaryKeyIsColumns(t) && TargetsRegistered(t) && CardinalitiesKnown(t) && JoinsNamed(t)
  }

  /** In a well-formed table every comma-separated part of the printed primary key is one of its columns. */
  lemma PrintedKeyNamesColumns(t: Table)
    requires WellFormed(t)
    ensures KeyColumns(PrimaryKeyText(t)) == t.primaryKey
    ensures forall k :: 0 <= k < |KeyColumns(PrimaryKeyText(t))| ==> HasColumn(t, KeyColumns(PrimaryKeyText(t))[k])
  {
    KeyColumnsOfKeyText(t.primaryKey);
  }

  /** The column names of `books` are pairwise distinct. */
  lemma BooksColumnsUnique()
    ensures ColumnsUnique(BooksTable)
  {
  }

  /** `books` is well formed: its key columns exist and its relationships name registered tables and their joining columns. */
  lemma BooksWellFormed()
    ensures WellFormed(BooksTable)
  {
    BooksColumnsUnique();
    assert BooksTable.columns[0].name == "book_id";
  }

  /** The column names of `authors` are pairwise distinct. */
  lemma AuthorsColumnsUnique()
    ensures ColumnsUnique(AuthorsTable)
  {
  }

  /** `authors` is well formed: its key columns exist and its relationships name registered tables and their joining columns. */
  lemma AuthorsWellFormed()
    ensures WellFormed(AuthorsTable)
  {
    AuthorsColumnsUnique();
    assert AuthorsTable.columns[0].name == "author_id";
  }

  /** The column names of `book_authors` are pairwise distinct. */
  lemma BookAuthorsColumnsUnique()
    ensures ColumnsUnique(BookAuthorsTable)
  {
  }

  /** `book_authors` is well formed: its key columns exist and its relationships name registered tables and their joining columns. */
  lemma BookAuthorsWellFormed()
    ensures WellFormed(BookAuthorsTable)
  {
    BookAuthorsColumnsUnique();
    assert BookAuthorsTable.columns[0].name == "book_id" && BookAuthorsTable.columns[1].name == "author_id";
  }

  /** The column names of `publishers` are pairwise distinct. */
  lemma PublishersColumnsUnique()
    ensures ColumnsUnique(PublishersTable)
  {
  }

  /** `publishers` is well formed: its key columns exist and its relationships name registered tables and their joining columns. */
  lemma PublishersWellFormed()
    ensures WellFormed(PublishersTable)
  {
    PublishersColumnsUnique();
    assert PublishersTable.columns[0].name == "publisher_id";
  }

  /** The column names of `categories` are pairwise distinct. */
  lemma CategoriesColumnsUnique()
    ensures ColumnsUnique(CategoriesTable)
  {
  }

  /** `categories` is well formed: its key columns exist and its relationships name registered tables and their joining columns. */
  lemma CategoriesWellFormed()
    ensures WellFormed(CategoriesTable)
  {
    CategoriesColumnsUnique();
    assert CategoriesTable.columns[0].name == "category_id";
  }

  /** The column names of `book_categories` are pairwise distinct. */
  lemma BookCategoriesColumnsUnique()
    ensures ColumnsUnique(BookCategoriesTable)
  {
  }

  /** `book_categories` is well formed: its key columns exist and its relationships name registered tables and their joining columns. */
  lemma BookCategoriesWellFormed()
    ensures WellFormed(BookCategoriesTable)
  {
    BookCategoriesColumnsUnique();
    assert BookCategoriesTable.columns[0].name == "book_id" && BookCategoriesTable.columns[1].name == "category_id";
  }

  /** The column names of `members` are pairwise distinct. */
  lemma MembersColumnsUnique()
    ensures ColumnsUnique(MembersTable)
  {
  }

  /** `members` is well formed: its key columns exist and its relationships name registered tables and their joining columns. */
  lemma MembersWellFormed()
    ensures WellFormed(MembersTable)
  {
    MembersColumnsUnique();
    assert MembersTable.columns[0].name == "member_id";
  }

  /** The column names of `staff` are pairwise distinct. */
  lemma StaffColumnsUnique()
    ensures ColumnsUnique(StaffTable)
  {
  }

  /** `staff` is well formed: its key columns exist and its relationships name registered tables and their joining columns. */
  lemma StaffWellFormed()
    ensures WellFormed(StaffTable)
  {
    StaffColumnsUnique();
    assert StaffTable.columns[0].name == "staff_id";
  }

  /** The column names of `loans` are pairwise distinct. */
  lemma LoansColumnsUnique()
    ensures ColumnsUnique(LoansTable)
  {
  }

  /** `loans` is well formed: its key columns exist and its relationships name registered tables and their joining columns. */
  lemma LoansWellFormed()
    ensures WellFormed(LoansTable)
  {
    LoansColumnsUnique();
    assert LoansTable.columns[0].name == "loan_id";
  }

  /** The column names of `reservations` are pairwise distinct. */
  lemma ReservationsColumnsUnique()
    ensures ColumnsUnique(ReservationsTable)
  {
  }

  /** `reservations` is well formed: its key columns exist and its relationships name registered tables and their joining columns. */
  lemma ReservationsWellFormed()
    ensures WellFormed(ReservationsTable)
  {
    ReservationsColumnsUnique();
    assert ReservationsTable.columns[0].name == "reservation_id";
  }

  /** The column names of `fines` are pairwise distinct. */
  lemma FinesColumnsUnique()
    ensures ColumnsUnique(FinesTable)
  {
  }

  /** `fines` is well formed: its key columns exist and its relationships name registered tables and their joining columns. */
  lemma FinesWellFormed()
    ensures WellFormed(FinesTable)
  {
    FinesColumnsUnique();
    assert FinesTable.columns[0].name == "fine_id";
  }

  /** The column names of `events` are pairwise distinct. */
  lemma EventsColumnsUnique()
    ensures ColumnsUnique(EventsTable)
  {
  }

  /** `events` is well formed: its key columns exist and its relationships name registered tables and their joining columns. */
  lemma EventsWellFormed()
    ensures WellFormed(EventsTable)
  {
    EventsColumnsUnique();
    assert EventsTable.columns[0].name == "event_id";
  }

  /** The column names of `event_attendees` are pairwise distinct. */
  lemma EventAttendeesColumnsUnique()
    ensures ColumnsUnique(EventAttendeesTable)
  {
  }

  /** `event_attendees` is well formed: its key columns exist and its relationships name registered tables and their joining columns. */
  lemma EventAttendeesWellFormed()
    ensures WellFormed(EventAttendeesTable)
  {
    EventAttendeesColumnsUnique();
    assert EventAttendeesTable.columns[0].name == "event_id" && EventAttendeesTable.columns[1].name == "member_id";
  }

  /** Every registered table is well formed: the startup validation the source does without. */
  lemma RegistryWellFormed()
    ensures forall i :: 0 <= i < |Tables| ==> WellFormed(Tables[i])
  {
    BooksWellFormed();
    AuthorsWellFormed();
    BookAuthorsWellFormed();
    PublishersWellFormed();
    CategoriesWellFormed();
    BookCategoriesWellFormed();
    MembersWellFormed();
    StaffWellFormed();
    LoansWellFormed();
    ReservationsWellFormed();
    FinesWellFormed();
    EventsWellFormed();
    EventAttendeesWellFormed();
  }

  /** Hence so is every table a registered key resolves to. */
  lemma RegisteredTablesWellFormed(key: string)
    requires key in TableKeys
    ensures WellFormed(TableOf(key).value)
  {
    RegistryWellFormed();
    EntriesAgree();
  }
}
