/**
 * The SQL side of the GPCA awards cog (src/cogs/gpca.py): the statement
 * templates of `DbCommand`, the tables the database must hold, the
 * value strings the add and update commands build, and the
 * check-then-act operations of `Entry` over a table abstracted as a map from
 * entry id to row, with a log of the statements sent to sqlite.
 */
module Gpca {
  import opened Wrappers
  import opened Strings

  // ---------------------------------------------------------------------------
  // DbCommand: fixed statements
  // ---------------------------------------------------------------------------

  const CreateTableAwardGroups: string :=
    "CREATE TABLE award_groups\n        (group_id INTEGER NOT NULL,\n        name TEXT NOT NULL,\n"
    + "        description TEXT,\n        image_link TEXT NOT NULL,\n        PRIMARY KEY (group_id)\n        )"

  const CreateTableAwards: string :=
    "CREATE TABLE awards\n        (award_id INTEGER NOT NULL,\n        name TEXT NOT NULL,\n"
    + "        description TEXT NOT NULL,\n        group_id INTEGER NOT NULL,\n        PRIMARY KEY (award_id),\n"
    + "        FOREIGN KEY (group_id) REFERENCES award_groups (group_id)\n"
    + "        ON DELETE CASCADE ON UPDATE NO ACTION\n        )"

  const CreateTableNominees: string :=
    "CREATE TABLE nominees\n        (nominee_id INTEGER NOT NULL,\n        name TEXT NOT NULL,\n"
    + "        description TEXT,\n        link TEXT NOT NULL,\n        image_link TEXT,\n"
    + "        award_id INTEGER NOT NULL,\n        PRIMARY KEY (nominee_id),\n"
    + "        FOREIGN KEY (award_id) REFERENCES awards (award_id)\n"
    + "        ON DELETE CASCADE ON UPDATE NO ACTION\n        )"

  const CreateTableVotes: string :=
    "CREATE TABLE votes\n        (vote_id INTEGER NOT NULL,\n        username TEXT NOT NULL,\n"
    + "        PRIMARY KEY (vote_id)\n        )"

  const QueryListTables: string := "SELECT name FROM sqlite_master"

  const QueryFullTree: string :=
    "SELECT\n        g.group_id, g.name, g.description, g.image_link,\n        a.award_id, a.name, a.description,\n"
    + "        n.nominee_id, n.name, n.description, n.link\n        FROM award_groups g \n"
    + "        LEFT JOIN awards a ON g.group_id = a.group_id\n"
    + "        LEFT JOIN nominees n ON a.award_id = n.award_id\n"
    + "        ORDER BY g.group_id, a.award_id, n.nominee_id"

  const QueryAllAwardGroups: string :=
    "SELECT group_id, name, description, image_link FROM award_groups ORDER BY group_id"

  const QueryAllAwards: string :=
    "SELECT\n        a.award_id, a.name, a.description, \n        g.group_id, g.name, g.description, g.image_link\n"
    + "        FROM award_groups g LEFT JOIN awards a\n        ON g.group_id = a.group_id\n"
    + "        ORDER BY g.group_id, a.award_id"

  // ---------------------------------------------------------------------------
  // DbCommand: statement builders
  // ---------------------------------------------------------------------------

  /** `query_all_award_nominees`: the nominees of one award, joined with the award. */
  function QueryAllAwardNomineesCommand(awardId: int): string
  {
    NomineeQueryHead + IntToString(awardId) + NomineeQueryTail
  }

  /** The text of `query_all_award_nominees` before the award id. */
  const NomineeQueryHead: string :=
    "SELECT n.nominee_id, n.name, n.description, n.link, n.image_link, a.award_id, a.name, a.description "
    + "FROM nominees n LEFT JOIN awards a ON n.award_id = a.award_id WHERE n.award_id = "

  /** The text of `query_all_award_nominees` after the award id. */
  const NomineeQueryTail: string := " ORDER BY n.nominee_id"

  /** `query_entry`: SELECT the columns of the entry whose `<type>_id` is `entryId`. */
  function QueryEntryCommand(entryId: int, entryType: string, table: string, columns: string): string
  {
    "SELECT " + columns + " FROM " + table + " WHERE " + entryType + "_id = " + IntToString(entryId)
  }

  /** `add_entry`: INSERT the value list into the columns. */
  function AddEntryCommand(table: string, columns: string, values: string): string
  {
    "INSERT INTO " + table + " (" + columns + ") VALUES (" + values + ")"
  }

  /** `update_entry`: UPDATE with the SET clause `values` the entry whose `<type>_id` is `entryId`. */
  function UpdateEntryCommand(entryId: int, entryType: string, table: string, values: string): string
  {
    "UPDATE " + table + " SET " + values + " WHERE " + entryType + "_id = " + IntToString(entryId)
  }

  /** `remove_entry`: DELETE the entry whose `<type>_id` is `entryId`. */
  function RemoveEntryCommand(entryId: int, entryType: string, table: string): string
  {
    "DELETE FROM " + table + " WHERE " + entryType + "_id = " + IntToString(entryId)
  }

  lemma PrefixCancel(p: string, x: string, y: string)
    requires p + x == p + y
    ensures x == y
  {
    assert x == (p + x)[|p|..];
    assert y == (p + y)[|p|..];
  }

  /** A SELECT of one entry names exactly that entry: equal statements have equal ids. */
  lemma QueryEntryAddressesItsEntry(a: int, b: int, entryType: string, table: string, columns: string)
    requires QueryEntryCommand(a, entryType, table, columns) == QueryEntryCommand(b, entryType, table, columns)
    ensures a == b
  {
    PrefixCancel("SELECT " + columns + " FROM " + table + " WHERE " + entryType + "_id = ", IntToString(a), IntToString(b));
    IntToStringInjective(a, b);
  }

  /** An UPDATE of one entry names exactly that entry. */
  lemma UpdateEntryAddressesItsEntry(a: int, b: int, entryType: string, table: string, values: string)
    requires UpdateEntryCommand(a, entryType, table, values) == UpdateEntryCommand(b, entryType, table, values)
    ensures a == b
  {
    PrefixCancel("UPDATE " + table + " SET " + values + " WHERE " + entryType + "_id = ", IntToString(a), IntToString(b));
    IntToStringInjective(a, b);
  }

  /** A DELETE of one entry names exactly that entry. */
  lemma RemoveEntryAddressesItsEntry(a: int, b: int, entryType: string, table: string)
    requires RemoveEntryCommand(a, entryType, table) == RemoveEntryCommand(b, entryType, table)
    ensures a == b
  {
    PrefixCancel("DELETE FROM " + table + " WHERE " + entryType + "_id = ", IntToString(a), IntToString(b));
    IntToStringInjective(a, b);
  }

  /** An INSERT into one table with one column list carries exactly the values it was given. */
  lemma AddEntryCarriesItsValues(table: string, columns: string, v: string, w: string)
    requires AddEntryCommand(table, columns, v) == AddEntryCommand(table, columns, w)
    ensures v == w
  {
    var p := "INSERT INTO " + table + " (" + columns + ") VALUES (";
    SuffixCancel(p + v, p + w, ")");
    PrefixCancel(p, v, w);
  }

  lemma SuffixCancel(x: string, y: string, t: string)
    requires x + t == y + t
    ensures x == y
  {
    assert x == (x + t)[..|x|];
    assert y == (y + t)[..|y|];
  }

  /** The nominee listing of one award names exactly that award. */
  lemma NomineeQueryAddressesItsAward(a: int, b: int)
    requires QueryAllAwardNomineesCommand(a) == QueryAllAwardNomineesCommand(b)
    ensures a == b
  {
    var p, tail := NomineeQueryHead, NomineeQueryTail;
    SuffixCancel(p + IntToString(a), p + IntToString(b), tail);
    PrefixCancel(p, IntToString(a), IntToString(b));
    IntToStringInjective(a, b);
  }

  // ---------------------------------------------------------------------------
  // The three entry kinds and their columns
  // ---------------------------------------------------------------------------

  /** The subclasses of `Entry`: award groups, awards and nominees. */
  datatype Kind = AwardGroupKind | AwardKind | NomineeKind

  function EntryTypeOf(kind: Kind): string
  {
    match kind
    case AwardGroupKind => "group"
    case AwardKind => "award"
    case NomineeKind => "nominee"
  }

  function TableOf(kind: Kind): string
  {
    match kind
    case AwardGroupKind => "award_groups"
    case AwardKind => "awards"
    case NomineeKind => "nominees"
  }

  /** `columns_list` of each kind, in the order its INSERT values are written. */
  function ColumnsListOf(kind: Kind): seq<string>
  {
    match kind
    case AwardGroupKind => ["group_id", "name", "image_link", "description"]
    case AwardKind => ["award_id", "name", "description", "group_id"]
    case NomineeKind => ["nominee_id", "name", "link", "award_id", "description", "image_link"]
  }

  /** `Entry.columns` of a kind: the column list joined with ", ". */
  function ColumnsOf(kind: Kind): string
  {
    Join(", ", ColumnsListOf(kind))
  }

  /** The column text taken apart at ", " gives back the column list, so it names every column once, in order. */
  lemma ColumnsRoundTrip(kind: Kind)
    ensures Split(ColumnsOf(kind), ", ") == ColumnsListOf(kind)
  {
    SplitJoin(", ", ColumnsListOf(kind));
  }

  // ---------------------------------------------------------------------------
  // create_tables_if_missing
  // ---------------------------------------------------------------------------

  /** The tables the database must hold, in creation order. */
  const Tables: seq<string> := ["award_groups", "awards", "nominees", "votes"]

  /** `[item for item in tables if item not in existing_tables]`. */
  function MissingTables(tables: seq<string>, existing: seq<string>): (r: seq<string>)
    ensures |r| <= |tables|
    ensures forall t :: t in r <==> t in tables && t !in existing
  {
    if tables == [] then []
    else
      var init := MissingTables(tables[..|tables| - 1], existing);
      var last := tables[|tables| - 1];
      assert tables == tables[..|tables| - 1] + [last];
      if last in existing then init else init + [last]
  }

  /** The difference keeps the order of `tables`: it distributes over concatenation. */
  lemma {:induction false} MissingTablesAppend(a: seq<string>, b: seq<string>, existing: seq<string>)
    ensures MissingTables(a + b, existing) == MissingTables(a, existing) + MissingTables(b, existing)
    decreases |b|
  {
    if b == [] {
      assert a + b == a;
    } else {
      var init := b[..|b| - 1];
      assert (a + b)[..|a + b| - 1] == a + init;
      MissingTablesAppend(a, init, existing);
    }
  }

  /** A table on its own is missing exactly when it is not among the existing ones. */
  lemma MissingTablesSingle(t: string, existing: seq<string>)
    ensures MissingTables([t], existing) == if t in existing then [] else [t]
  {
    assert [t][..0] == [];
  }

  /** The `match` in `create_tables_if_missing`: the statement that creates a table; any other name is passed over. */
  function CreateStatement(table: string): Option<string>
  {
    match table
    case "award_groups" => Some(CreateTableAwardGroups)
    case "awards" => Some(CreateTableAwards)
    case "nominees" => Some(CreateTableNominees)
    case "votes" => Some(CreateTableVotes)
    case _ => None
  }

  /** The statements the loop executes for the given tables, in order. */
  function CreateStatements(tables: seq<string>): seq<string>
  {
    if tables == [] then []
    else
      var s := CreateStatement(tables[|tables| - 1]);
      CreateStatements(tables[..|tables| - 1]) + (if s.Some? then [s.value] else [])
  }

  /**
   * `create_tables_if_missing` after the list of existing table names has been
   * read: the CREATE statements it executes, in order.
   */
  method CreateTablesIfMissing(existing: seq<string>) returns (executed: seq<string>)
    ensures executed == CreateStatements(MissingTables(Tables, existing))
  {
    var missing := MissingTables(Tables, existing);
    executed := [];
    var i := 0;
    while i < |missing|
      invariant 0 <= i <= |missing|
      invariant executed == CreateStatements(missing[..i])
    {
      assert missing[..i + 1][..i] == missing[..i];
      match missing[i] {
        case "award_groups" => executed := executed + [CreateTableAwardGroups];
        case "awards" => executed := executed + [CreateTableAwards];
        case "nominees" => executed := executed + [CreateTableNominees];
        case "votes" => executed := executed + [CreateTableVotes];
        case _ =>
      }
      i := i + 1;
    }
    assert missing[..i] == missing;
  }

  /** The four CREATE statements differ from one another. */
  lemma CreateStatementsDistinct()
    ensures CreateTableAwardGroups != CreateTableAwards && CreateTableAwardGroups != CreateTableNominees
    ensures CreateTableAwardGroups != CreateTableVotes && CreateTableAwards != CreateTableNominees
    ensures CreateTableAwards != CreateTableVotes && CreateTableNominees != CreateTableVotes
  {
    assert |CreateTableAwardGroups| == 190 && |CreateTableAwards| == 307;
    assert |CreateTableNominees| == 351 && |CreateTableVotes| == 125;
  }

  lemma {:induction false} InCreateStatements(tables: seq<string>, s: string)
    requires forall t :: t in tables ==> t in Tables
    ensures s in CreateStatements(tables) <==> exists t :: t in tables && CreateStatement(t) == Some(s)
  {
    if tables != [] {
      var init := tables[..|tables| - 1];
      var last := tables[|tables| - 1];
      assert tables == init + [last];
      InCreateStatements(init, s);
    }
  }

  /** Different tables of the schema are created by different statements. */
  lemma CreateStatementInjective(t1: string, t2: string)
    requires t1 in Tables && t2 in Tables
    requires CreateStatement(t1) == CreateStatement(t2)
    ensures t1 == t2
  {
    CreateStatementsDistinct();
  }

  /** Every table of the schema is created exactly when it is not there yet. */
  lemma CreatesExactlyTheMissing(existing: seq<string>, t: string)
    requires t in Tables
    ensures CreateStatement(t).Some?
    ensures CreateStatement(t).value in CreateStatements(MissingTables(Tables, existing)) <==> t !in existing
  {
    var missing := MissingTables(Tables, existing);
    var s := CreateStatement(t).value;
    InCreateStatements(missing, s);
    if s in CreateStatements(missing) {
      var t' :| t' in missing && CreateStatement(t') == Some(s);
      CreateStatementInjective(t', t);
    }
  }

  // ---------------------------------------------------------------------------
  // Value strings of the add commands
  // ---------------------------------------------------------------------------

  /** A text value between single quotes, as the f-strings write it. */
  function Quoted(s: string): string
  {
    "'" + s + "'"
  }

  /** `AwardGroup.add_entry`'s value list. */
  function AwardGroupAddValues(groupId: int, name: string, imageLink: string, description: string): string
  {
    IntToString(groupId) + ", " + Quoted(name) + ", " + Quoted(imageLink) + ", " + Quoted(description)
  }

  /** `Award.add_entry`'s value list, with the stray quote after the group id. */
  function AwardAddValues(awardId: int, name: string, description: string, groupId: int): string
  {
    IntToString(awardId) + ", " + Quoted(name) + ", " + Quoted(description) + ", " + IntToString(groupId) + "'"
  }

  /** `Nominee.add_entry`'s value list. */
  function NomineeAddValues(nomineeId: int, name: string, link: string, awardId: int, description: string, imageLink: string): string
  {
    IntToString(nomineeId) + ", " + Quoted(name) + ", " + Quoted(link) + ", " + IntToString(awardId) + ", "
    + Quoted(description) + ", " + Quoted(imageLink)
  }

  /** How often `c` occurs in `s`. */
  function Count(s: string, c: char): nat
  {
    if s == [] then 0 else Count(s[..|s| - 1], c) + (if s[|s| - 1] == c then 1 else 0)
  }

  lemma {:induction false} CountAppend(a: string, b: string, c: char)
    ensures Count(a + b, c) == Count(a, c) + Count(b, c)
    decreases |b|
  {
    if b == [] {
      assert a + b == a;
    } else {
      assert (a + b)[..|a + b| - 1] == a + b[..|b| - 1];
      CountAppend(a, b[..|b| - 1], c);
    }
  }

  lemma {:induction false} CountAbsent(s: string, c: char)
    requires forall i :: 0 <= i < |s| ==> s[i] != c
    ensures Count(s, c) == 0
  {
    if s != [] {
      CountAbsent(s[..|s| - 1], c);
    }
  }

  lemma QuotesOfNumber(n: int)
    ensures Count(IntToString(n), '\'') == 0
  {
    CountAbsent(IntToString(n), '\'');
  }

  lemma QuotesOfQuoted(s: string)
    requires Count(s, '\'') == 0
    ensures Count(Quoted(s), '\'') == 2
  {
    CountAppend("'" + s, "'", '\'');
    CountAppend("'", s, '\'');
    assert "'"[..0] == [];
  }

  lemma QuotesOfSeparator()
    ensures Count(", ", '\'') == 0
  {
    CountAbsent(", ", '\'');
  }

  /**
   * For quote-free text values, the group and nominee value lists hold an even
   * number of single quotes (every text value closed), while the award value
   * list as written holds an odd number: its stray quote opens a literal that
   * is never closed.
   */
  lemma AddValuesQuoteParity(id: int, parent: int, name: string, imageLink: string, description: string, link: string)
    requires Count(name, '\'') == 0 && Count(imageLink, '\'') == 0
    requires Count(description, '\'') == 0 && Count(link, '\'') == 0
    ensures Count(AwardGroupAddValues(id, name, imageLink, description), '\'') == 6
    ensures Count(AwardAddValues(id, name, description, parent), '\'') == 5
    ensures Count(NomineeAddValues(id, name, link, parent, description, imageLink), '\'') == 8
  {
    QuotesOfNumber(id);
    QuotesOfNumber(parent);
    QuotesOfSeparator();
    QuotesOfQuoted(name);
    QuotesOfQuoted(imageLink);
    QuotesOfQuoted(description);
    QuotesOfQuoted(link);
    var sep := ", ";
    // AwardGroup
    CountAppend(IntToString(id), sep, '\'');
    CountAppend(IntToString(id) + sep, Quoted(name), '\'');
    CountAppend(IntToString(id) + sep + Quoted(name), sep, '\'');
    CountAppend(IntToString(id) + sep + Quoted(name) + sep, Quoted(imageLink), '\'');
    CountAppend(IntToString(id) + sep + Quoted(name) + sep + Quoted(imageLink), sep, '\'');
    CountAppend(IntToString(id) + sep + Quoted(name) + sep + Quoted(imageLink) + sep, Quoted(description), '\'');
    // Award
    CountAppend(IntToString(id) + sep + Quoted(name), sep, '\'');
    CountAppend(IntToString(id) + sep + Quoted(name) + sep, Quoted(description), '\'');
    CountAppend(IntToString(id) + sep + Quoted(name) + sep + Quoted(description), sep, '\'');
    CountAppend(IntToString(id) + sep + Quoted(name) + sep + Quoted(description) + sep, IntToString(parent), '\'');
    CountAppend(IntToString(id) + sep + Quoted(name) + sep + Quoted(description) + sep + IntToString(parent), "'", '\'');
    assert "'"[..0] == [];
    // Nominee
    var n0 := IntToString(id) + sep + Quoted(name) + sep;
    CountAppend(n0, Quoted(link), '\'');
    CountAppend(n0 + Quoted(link), sep, '\'');
    CountAppend(n0 + Quoted(link) + sep, IntToString(parent), '\'');
    CountAppend(n0 + Quoted(link) + sep + IntToString(parent), sep, '\'');
    CountAppend(n0 + Quoted(link) + sep + IntToString(parent) + sep, Quoted(description), '\'');
    CountAppend(n0 + Quoted(link) + sep + IntToString(parent) + sep + Quoted(description), sep, '\'');
    CountAppend(n0 + Quoted(link) + sep + IntToString(parent) + sep + Quoted(description) + sep, Quoted(imageLink), '\'');
  }

  // ---------------------------------------------------------------------------
  // SET clauses of the update commands
  // ---------------------------------------------------------------------------

  /**
   * One conditional `+=` of an `update_entry`: the column, its rendered value,
   * whether the user gave it (a non-empty text, a non-zero id), and whether the
   * source writes a comma after it.
   */
  datatype Assignment = Assignment(column: string, value: string, given: bool, comma: bool)

  function Clause(a: Assignment): string
  {
    a.column + " = " + a.value + (if a.comma then "," else "")
  }

  /** The clauses of the given assignments, in order. */
  function SetClauses(assignments: seq<Assignment>): (r: seq<string>)
    ensures |r| <= |assignments|
  {
    if assignments == [] then []
    else
      var last := assignments[|assignments| - 1];
      SetClauses(assignments[..|assignments| - 1]) + (if last.given then [Clause(last)] else [])
  }

  /** The value string an `update_entry` accumulates. */
  function SetText(assignments: seq<Assignment>): string
  {
    Concat(SetClauses(assignments))
  }

  /** The assignments of `AwardGroup.update_entry`, in the order it tests them. */
  function AwardGroupAssignments(name: string, imageLink: string, description: string): seq<Assignment>
  {
    [ Assignment("name", Quoted(name), name != "", true),
      Assignment("image_link", Quoted(imageLink), imageLink != "", true),
      Assignment("description", Quoted(description), description != "", false) ]
  }

  /** The assignments of `Award.update_entry`; a group id of 0 means "not given". */
  function AwardAssignments(name: string, description: string, groupId: int): seq<Assignment>
  {
    [ Assignment("name", Quoted(name), name != "", true),
      Assignment("description", Quoted(description), description != "", true),
      Assignment("group_id", IntToString(groupId), groupId != 0, false) ]
  }

  /** The assignments of `Nominee.update_entry`; an award id of 0 means "not given". */
  function NomineeAssignments(name: string, link: string, awardId: int, description: string, imageLink: string): seq<Assignment>
  {
    [ Assignment("name", Quoted(name), name != "", true),
      Assignment("link", Quoted(link), link != "", true),
      Assignment("award_id", IntToString(awardId), awardId != 0, true),
      Assignment("description", Quoted(description), description != "", true),
      Assignment("image_link", Quoted(imageLink), imageLink != "", false) ]
  }

  lemma SetTextSnoc(assignments: seq<Assignment>, a: Assignment)
    ensures SetText(assignments + [a]) == SetText(assignments) + (if a.given then Clause(a) else "")
  {
    var all := assignments + [a];
    assert all[..|all| - 1] == assignments;
    if !a.given {
      assert SetClauses(all) == SetClauses(assignments);
    }
  }

  /** One conditional `+=` of an `update_entry` extends the SET text by that assignment. */
  lemma Accumulated(all: seq<Assignment>, k: nat, before: string, after: string, piece: string)
    requires k < |all|
    requires before == SetText(all[..k])
    requires piece == Clause(all[k])
    requires after == if all[k].given then before + piece else before
    ensures after == SetText(all[..k + 1])
  {
    SetTextSnoc(all[..k], all[k]);
    assert all[..k + 1] == all[..k] + [all[k]];
  }

  /** The text of each of the three award group clauses. */
  lemma AwardGroupClauseTexts(name: string, imageLink: string, description: string)
    ensures var all := AwardGroupAssignments(name, imageLink, description);
      && Clause(all[0]) == "name = '" + name + "',"
      && Clause(all[1]) == "image_link = '" + imageLink + "',"
      && Clause(all[2]) == "description = '" + description + "'"
  {
  }

  /** The text of each of the three award clauses. */
  lemma AwardClauseTexts(name: string, description: string, groupId: int)
    ensures var all := AwardAssignments(name, description, groupId);
      && Clause(all[0]) == "name = '" + name + "',"
      && Clause(all[1]) == "description = '" + description + "',"
      && Clause(all[2]) == "group_id = " + IntToString(groupId)
  {
  }

  /** `AwardGroup.update_entry`'s accumulation of `update_value_string`. */
  method AwardGroupUpdateValues(name: string, imageLink: string, description: string) returns (values: string)
    ensures values == SetText(AwardGroupAssignments(name, imageLink, description))
  {
    ghost var all := AwardGroupAssignments(name, imageLink, description);
    AwardGroupClauseTexts(name, imageLink, description);
    ghost var before := "";
    values := "";
    if name != "" {
      values := values + ("name = '" + name + "',");
    }
    Accumulated(all, 0, before, values, "name = '" + name + "',");
    before := values;
    if imageLink != "" {
      values := values + ("image_link = '" + imageLink + "',");
    }
    Accumulated(all, 1, before, values, "image_link = '" + imageLink + "',");
    before := values;
    if description != "" {
      values := values + ("description = '" + description + "'");
    }
    Accumulated(all, 2, before, values, "description = '" + description + "'");
    assert all[..3] == all;
  }

  /** `Award.update_entry`'s accumulation of `update_value_string`. */
  method AwardUpdateValues(name: string, description: string, groupId: int) returns (values: string)
    ensures values == SetText(AwardAssignments(name, description, groupId))
  {
    ghost var all := AwardAssignments(name, description, groupId);
    AwardClauseTexts(name, description, groupId);
    ghost var before := "";
    values := "";
    if name != "" {
      values := values + ("name = '" + name + "',");
    }
    Accumulated(all, 0, before, values, "name = '" + name + "',");
    before := values;
    if description != "" {
      values := values + ("description = '" + description + "',");
    }
    Accumulated(all, 1, before, values, "description = '" + description + "',");
    before := values;
    if groupId != 0 {
      values := values + ("group_id = " + IntToString(groupId));
    }
    Accumulated(all, 2, before, values, "group_id = " + IntToString(groupId));
    assert all[..3] == all;
  }

  /** The text of each of the five nominee clauses. */
  lemma NomineeClauseTexts(name: string, link: string, awardId: int, description: string, imageLink: string)
    ensures var all := NomineeAssignments(name, link, awardId, description, imageLink);
      && Clause(all[0]) == "name = '" + name + "',"
      && Clause(all[1]) == "link = '" + link + "',"
      && Clause(all[2]) == "award_id = " + IntToString(awardId) + ","
      && Clause(all[3]) == "description = '" + description + "',"
      && Clause(all[4]) == "image_link = '" + imageLink + "'"
  {
  }

  /** `Nominee.update_entry`'s accumulation of `update_value_string`. */
  method NomineeUpdateValues(name: string, link: string, awardId: int, description: string, imageLink: string)
    returns (values: string)
    ensures values == SetText(NomineeAssignments(name, link, awardId, description, imageLink))
  {
    ghost var all := NomineeAssignments(name, link, awardId, description, imageLink);
    NomineeClauseTexts(name, link, awardId, description, imageLink);
    ghost var before := "";
    values := "";
    if name != "" {
      values := values + ("name = '" + name + "',");
    }
    Accumulated(all, 0, before, values, "name = '" + name + "',");
    before := values;
    if link != "" {
      values := values + ("link = '" + link + "',");
    }
    Accumulated(all, 1, before, values, "link = '" + link + "',");
    before := values;
    if awardId != 0 {
      values := values + ("award_id = " + IntToString(awardId) + ",");
    }
    Accumulated(all, 2, before, values, "award_id = " + IntToString(awardId) + ",");
    before := values;
    if description != "" {
      values := values + ("description = '" + description + "',");
    }
    Accumulated(all, 3, before, values, "description = '" + description + "',");
    before := values;
    if imageLink != "" {
      values := values + ("image_link = '" + imageLink + "'");
    }
    Accumulated(all, 4, before, values, "image_link = '" + imageLink + "'");
    assert all[..5] == all;
  }

  /** No two columns of an update start with the same letter. */
  predicate DistinctColumns(assignments: seq<Assignment>)
  {
    && (forall i :: 0 <= i < |assignments| ==> assignments[i].column != "")
    && (forall i, j :: 0 <= i < j < |assignments| ==> assignments[i].column[0] != assignments[j].column[0])
  }

  /** A field's clause is in the SET text's clauses exactly when that field was given. */
  lemma {:induction false} ClauseIncludedIff(assignments: seq<Assignment>, i: nat)
    requires DistinctColumns(assignments)
    requires i < |assignments|
    ensures Clause(assignments[i]) in SetClauses(assignments) <==> assignments[i].given
  {
    var n := |assignments|;
    var init := assignments[..n - 1];
    var last := assignments[n - 1];
    assert DistinctColumns(init);
    if i == n - 1 {
      if Clause(last) in SetClauses(init) {
        SetClauseFrom(init, Clause(last));
        var j :| 0 <= j < |init| && init[j].given && Clause(init[j]) == Clause(last);
        DistinctClauses(init[j], last);
      }
    } else {
      ClauseIncludedIff(init, i);
      DistinctClauses(assignments[i], last);
    }
  }

  /** Clauses of columns with different first letters differ. */
  lemma DistinctClauses(a: Assignment, b: Assignment)
    requires a.column != "" && b.column != "" && a.column[0] != b.column[0]
    ensures Clause(a) != Clause(b)
  {
    assert Clause(a)[0] == a.column[0];
    assert Clause(b)[0] == b.column[0];
  }

  /** Every clause in the SET text comes from a given assignment. */
  lemma {:induction false} SetClauseFrom(assignments: seq<Assignment>, c: string)
    requires c in SetClauses(assignments)
    ensures exists j :: 0 <= j < |assignments| && assignments[j].given && Clause(assignments[j]) == c
  {
    var n := |assignments|;
    var init := assignments[..n - 1];
    if c in SetClauses(init) {
      SetClauseFrom(init, c);
      var j :| 0 <= j < |init| && init[j].given && Clause(init[j]) == c;
      assert assignments[j] == init[j];
    } else {
      assert assignments[n - 1].given && Clause(assignments[n - 1]) == c;
    }
  }

  /** The given assignment that comes last, if any. */
  function LastGiven(assignments: seq<Assignment>): Option<Assignment>
  {
    if assignments == [] then None
    else if assignments[|assignments| - 1].given then Some(assignments[|assignments| - 1])
    else LastGiven(assignments[..|assignments| - 1])
  }

  /** Rendered values are non-empty and never end in a comma. */
  predicate PlainValues(assignments: seq<Assignment>)
  {
    forall i :: 0 <= i < |assignments| ==> assignments[i].value != "" && assignments[i].value[|assignments[i].value| - 1] != ','
  }

  /**
   * The SET text ends in a comma (which sqlite rejects) exactly when the last
   * field given is one the source writes a comma after.
   */
  lemma {:induction false} TrailingCommaIff(assignments: seq<Assignment>)
    requires PlainValues(assignments)
    ensures var t := SetText(assignments);
      (t != "" && t[|t| - 1] == ',') <==> LastGiven(assignments).Some? && LastGiven(assignments).value.comma
    ensures SetText(assignments) == "" <==> LastGiven(assignments).None?
  {
    if assignments != [] {
      var n := |assignments|;
      var init := assignments[..n - 1];
      var last := assignments[n - 1];
      assert PlainValues(init) by {
        forall i | 0 <= i < |init| ensures init[i].value != "" && init[i].value[|init[i].value| - 1] != ',' {
          assert init[i] == assignments[i];
        }
      }
      TrailingCommaIff(init);
      assert assignments == init + [last];
      SetTextSnoc(init, last);
      if last.given {
        var c := Clause(last);
        assert c[|c| - 1] == if last.comma then ',' else last.value[|last.value| - 1];
      }
    }
  }

  /**
   * `AwardGroup.update_entry` as written: the SET text is empty when no field
   * is given, and ends in a comma exactly when description is left out while
   * the name or the image link is given.
   */
  lemma AwardGroupUpdateShape(name: string, imageLink: string, description: string)
    ensures var t := SetText(AwardGroupAssignments(name, imageLink, description));
      && (t == "" <==> name == "" && imageLink == "" && description == "")
      && ((t != "" && t[|t| - 1] == ',') <==> description == "" && (name != "" || imageLink != ""))
  {
    var all := AwardGroupAssignments(name, imageLink, description);
    assert PlainValues(all) by {
      assert Quoted(name)[|Quoted(name)| - 1] == '\'';
      assert Quoted(imageLink)[|Quoted(imageLink)| - 1] == '\'';
      assert Quoted(description)[|Quoted(description)| - 1] == '\'';
    }
    TrailingCommaIff(all);
    assert LastGiven(all[..1]) == if name != "" then Some(all[0]) else None by {
      assert all[..1][..0] == [];
    }
    assert LastGiven(all[..2]) == if imageLink != "" then Some(all[1]) else LastGiven(all[..1]) by {
      assert all[..2][..1] == all[..1];
    }
    assert LastGiven(all) == if description != "" then Some(all[2]) else LastGiven(all[..2]);
  }

  // ---------------------------------------------------------------------------
  // Entry: check-then-act over one table
  // ---------------------------------------------------------------------------

  /** A column value sqlite hands back. */
  datatype Value = Int(n: int) | Text(s: string) | Null

  /** A row, by column name. */
  type Row = map<string, Value>

  /** `row` with the columns of `assignments` set to their new values. */
  function Override(row: Row, assignments: Row): (r: Row)
    ensures r.Keys == row.Keys + assignments.Keys
    ensures forall c :: c in assignments ==> r[c] == assignments[c]
    ensures forall c :: c in row && c !in assignments ==> r[c] == row[c]
  {
    map c | c in row.Keys + assignments.Keys :: if c in assignments then assignments[c] else row[c]
  }

  /**
   * An `Entry` (AwardGroup, Award or Nominee) with its table: `rows` maps each
   * entry id to its row, and `log` lists the statements executed, in order.
   */
  class Entry {
    const kind: Kind
    var rows: map<int, Row>
    var log: seq<string>

    constructor (kind: Kind, rows: map<int, Row>)
      ensures this.kind == kind && this.rows == rows && log == []
    {
      this.kind := kind;
      this.rows := rows;
      log := [];
    }

    function EntryType(): string
    {
      EntryTypeOf(kind)
    }

    function Table(): string
    {
      TableOf(kind)
    }

    /** `columns`. */
    function Columns(): string
    {
      ColumnsOf(kind)
    }

    /** `query_entry`: whether the entry exists, and its row when it does. */
    method QueryEntry(entryId: int) returns (found: bool, entry: Option<Row>)
      modifies this
      ensures found <==> entryId in rows
      ensures entry == if entryId in rows then Some(rows[entryId]) else None
      ensures rows == old(rows)
      ensures log == old(log) + [QueryEntryCommand(entryId, EntryType(), Table(), Columns())]
    {
      log := log + [QueryEntryCommand(entryId, EntryType(), Table(), Columns())];
      if entryId in rows {
        return true, Some(rows[entryId]);
      }
      return false, None;
    }

    /**
     * `check_then_add`: an existing id is reported with its row and nothing is
     * inserted; otherwise the INSERT runs and stores `row`, the row its value
     * list describes.
     */
    method CheckThenAdd(entryId: int, addValues: string, row: Row) returns (added: bool, existing: Option<Row>)
      modifies this
      ensures added <==> entryId !in old(rows)
      ensures !added ==> rows == old(rows) && existing == Some(old(rows)[entryId])
      ensures added ==> rows == old(rows)[entryId := row] && existing == None
      ensures var query := QueryEntryCommand(entryId, EntryType(), Table(), Columns());
        log == old(log) + [query] + (if added then [AddEntryCommand(Table(), Columns(), addValues)] else [])
    {
      var addQuery := AddEntryCommand(Table(), Columns(), addValues);
      var present, entry := QueryEntry(entryId);
      if present {
        return false, entry;
      }
      log := log + [addQuery];
      rows := rows[entryId := row];
      return true, None;
    }

    /**
     * `check_then_update`: an absent id changes nothing; otherwise the UPDATE
     * runs, setting the columns `assignments` names, and the row before and
     * after is returned.
     */
    method CheckThenUpdate(entryId: int, updateValues: string, assignments: Row)
      returns (updated: bool, rowsBeforeAfter: Option<(Row, Row)>)
      modifies this
      ensures updated <==> entryId in old(rows)
      ensures !updated ==> rows == old(rows) && rowsBeforeAfter == None
      ensures updated ==>
        && rows == old(rows)[entryId := Override(old(rows)[entryId], assignments)]
        && rowsBeforeAfter == Some((old(rows)[entryId], rows[entryId]))
      ensures var query := QueryEntryCommand(entryId, EntryType(), Table(), Columns());
        log == old(log) + [query]
          + (if updated then [UpdateEntryCommand(entryId, EntryType(), Table(), updateValues), query] else [])
    {
      var updateQuery := UpdateEntryCommand(entryId, EntryType(), Table(), updateValues);
      var present, before := QueryEntry(entryId);
      if !present {
        return false, None;
      }
      log := log + [updateQuery];
      rows := rows[entryId := Override(rows[entryId], assignments)];
      var again, after := QueryEntry(entryId);
      return true, Some((before.value, after.value));
    }

    /** `remove_entry`: an absent id changes nothing; otherwise the DELETE runs and the old row is returned. */
    method RemoveEntry(entryId: int) returns (removed: bool, entry: Option<Row>)
      modifies this
      ensures removed <==> entryId in old(rows)
      ensures !removed ==> rows == old(rows) && entry == None
      ensures removed ==> rows == old(rows) - {entryId} && entry == Some(old(rows)[entryId])
      ensures var query := QueryEntryCommand(entryId, EntryType(), Table(), Columns());
        log == old(log) + [query] + (if removed then [RemoveEntryCommand(entryId, EntryType(), Table())] else [])
    {
      var removeQuery := RemoveEntryCommand(entryId, EntryType(), Table());
      var present, found := QueryEntry(entryId);
      if !present {
        return false, None;
      }
      log := log + [removeQuery];
      rows := rows - {entryId};
      return true, found;
    }
  }
}
