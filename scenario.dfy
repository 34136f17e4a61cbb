/**
 * One board worked through every stage: a board named "CRM Direct Sellers"
 * holding the deal "Acme Corp" with a `price per seat` of "10".
 */
module Scenario {
  import opened Wrappers
  import opened Strings
  import opened QueryMonday
  import opened Frame
  import opened Seqs
  import opened ProcessBoards

  const BOARD_NAME := "CRM Direct Sellers"
  const COLUMNS := [SOURCE, ACCOUNT_NAME, PRICE_PER_SEAT, TRADE_PRICE]

  /** The deal "Acme Corp" with one titled field holding "10". */
  function ScenarioItem(title: string): Item {
    Item("Acme Corp", [ColumnValue(title, "10")])
  }



  /** `replace('CRM', '')` on the board name leaves the leading space. */
  lemma ScenarioReplaced()
    ensures ReplaceAll(BOARD_NAME, CRM, "") == " Direct Sellers"
  {
    var rest := " Direct Sellers";
    assert BOARD_NAME == CRM + rest;
    LacksFirstLetter(rest, CRM);
    DropLeading(CRM, rest);
  }

  /** Splitting what is left and joining with single spaces gives "Direct Sellers". */
  lemma ScenarioCollapsed()
    ensures Collapse(" Direct Sellers") == "Direct Sellers"
  {
    var rest := " Direct Sellers";
    var ws := ["Direct", "Sellers"];
    assert IsWord(ws[0]) && IsWord(ws[1]);
    assert Join(" ", ws) == "Direct Sellers" by {
      assert Join(" ", ws[1..]) == "Sellers";
    }
    assert rest[1..] == Join(" ", ws);
    WordsOfJoin(ws);
  }

  /** "CRM" is cut and the leftover space trimmed. */
  lemma SourceOfScenarioBoard()
    ensures SourceName(BOARD_NAME) == "Direct Sellers"
  {
    ScenarioReplaced();
    ScenarioCollapsed();
  }



  /** Lowercased, the scenario's board name contains "direct". */
  lemma ScenarioBoardPasses()
    ensures Contains(Lower(BOARD_NAME), "direct")
  {
    LowerMatchAt(BOARD_NAME, "direct", 4);
  }

  /** The field title "price per seat" is already lowercase. */
  lemma ScenarioTitle()
    ensures Lower(PRICE_PER_SEAT) == PRICE_PER_SEAT
  {
    LowerKeeps(PRICE_PER_SEAT);
  }

  /** With one include keyword and no exclude keywords, the rules are exactly the keyword test. */
  lemma OneIncludeKeyword(kw: string, name: string)
    ensures RulesPass(KeywordList([kw]), KeywordList([]), name) <==> Contains(name, kw)
  {
    assert kw in [kw];
  }

  /** A run of one page holding one board gives that board's records. */
  lemma OneBoardRun(columns: seq<string>, includeRule: Rule, excludeRule: Rule, b: Board)
    ensures RunDeals(columns, includeRule, excludeRule, [[b]]) == BoardDeals(columns, includeRule, excludeRule, b)
  {
    var f := (boards: seq<Board>) => PageDeals(columns, includeRule, excludeRule, boards);
    var g := (c: Board) => BoardDeals(columns, includeRule, excludeRule, c);
    assert [[b]][..0] == [] && [b][..0] == [];
    assert FlatMap(g, [b]) == FlatMap(g, []) + g(b);
    assert FlatMap(f, [[b]]) == FlatMap(f, []) + f([b]);
  }

  /*
   * The rest of the scenario is stated for any board name and field title with
   * the properties SourceOfScenarioBoard, ScenarioBoardPasses and
   * ScenarioTitle prove of "CRM Direct Sellers" and "price per seat".
   */

  /**
   * The deal's record: `source` from the board name, `account name` from the
   * item, `price per seat` from its one value, `trade price` unset.
   */
  lemma ScenarioRecord(boardName: string, title: string)
    requires SourceName(boardName) == "Direct Sellers" && Lower(title) == PRICE_PER_SEAT
    ensures ItemRecord(COLUMNS, boardName, ScenarioItem(title)).Keys == {SOURCE, ACCOUNT_NAME, PRICE_PER_SEAT, TRADE_PRICE}
    ensures ItemRecord(COLUMNS, boardName, ScenarioItem(title))[SOURCE] == Some("Direct Sellers")
    ensures ItemRecord(COLUMNS, boardName, ScenarioItem(title))[ACCOUNT_NAME] == Some("Acme Corp")
    ensures ItemRecord(COLUMNS, boardName, ScenarioItem(title))[PRICE_PER_SEAT] == Some("10")
    ensures ItemRecord(COLUMNS, boardName, ScenarioItem(title))[TRADE_PRICE] == None
  {
    ItemRecordKeys(COLUMNS, boardName, ScenarioItem(title));
    assert (set c | c in COLUMNS) + {SOURCE, ACCOUNT_NAME} == {SOURCE, ACCOUNT_NAME, PRICE_PER_SEAT, TRADE_PRICE};
    ItemRecordDefault(COLUMNS, boardName, ScenarioItem(title), SOURCE);
    ItemRecordDefault(COLUMNS, boardName, ScenarioItem(title), ACCOUNT_NAME);
    ItemRecordOverride(COLUMNS, boardName, ScenarioItem(title), PRICE_PER_SEAT, 0);
    ItemRecordDefault(COLUMNS, boardName, ScenarioItem(title), TRADE_PRICE);
  }

  /** Include ["direct"] keeps the one item's record; include ["Direct"], capitalised, keeps nothing. */
  lemma ScenarioRun(boardName: string, title: string)
    requires Contains(Lower(boardName), "direct")
    ensures RunDeals(COLUMNS, KeywordList(["direct"]), KeywordList([]), [[Board(boardName, [ScenarioItem(title)])]])
            == [ItemRecord(COLUMNS, boardName, ScenarioItem(title))]
    ensures RunDeals(COLUMNS, KeywordList([DIRECT]), KeywordList([]), [[Board(boardName, [ScenarioItem(title)])]]) == []
  {
    var board := Board(boardName, [ScenarioItem(title)]);
    OneIncludeKeyword("direct", Lower(boardName));
    CapitalisedIncludeRejects(KeywordList([DIRECT]), KeywordList([]), boardName, DIRECT, 0);
    OneBoardRun(COLUMNS, KeywordList(["direct"]), KeywordList([]), board);
    OneBoardRun(COLUMNS, KeywordList([DIRECT]), KeywordList([]), board);
    assert ExtractBoard(COLUMNS, board) == [ItemRecord(COLUMNS, boardName, ScenarioItem(title))];
  }

  /** The published columns for the scenario's configuration. */
  lemma ScenarioColumns()
    ensures OutputColumns(COLUMNS) == [SOURCE, ACCOUNT_NAME, PRICE_PER_SEAT, TYPE]
  {
    var kept := [SOURCE, ACCOUNT_NAME, PRICE_PER_SEAT];
    assert COLUMNS == kept + [TRADE_PRICE];
    assert Without([TRADE_PRICE], TRADE_PRICE) == [];
    assert TRADE_PRICE !in kept && TRADE_PRICE !in [TYPE];
    WithoutAppend(kept, [TRADE_PRICE], TRADE_PRICE);
    WithoutAppend(COLUMNS, [TYPE], TRADE_PRICE);
  }

  /** "Direct Sellers" starts with "Direct". */
  lemma ScenarioSourceIsDirect()
    ensures StartsWith("Direct Sellers", DIRECT)
  {
    assert "Direct Sellers"[..6] == DIRECT;
  }

  /** The published table for the deal's record has the four columns, one row, and no `trade price`. */
  lemma ScenarioTableShape(r: Record)
    ensures Reshape(COLUMNS, [r]).header == [SOURCE, ACCOUNT_NAME, PRICE_PER_SEAT, TYPE]
    ensures |Reshape(COLUMNS, [r]).rows| == 1
    ensures TRADE_PRICE !in Reshape(COLUMNS, [r]).rows[0]
  {
    ScenarioColumns();
    ReshapeColumns(COLUMNS, [r]);
  }

  /** Its row: the record's source, account name and price, typed "Direct" by its source. */
  lemma ScenarioRow(r: Record)
    requires Cell(r, SOURCE) == Some("Direct Sellers") && Cell(r, ACCOUNT_NAME) == Some("Acme Corp")
    requires Cell(r, PRICE_PER_SEAT) == Some("10")
    ensures |Reshape(COLUMNS, [r]).rows| == 1
    ensures Reshape(COLUMNS, [r]).rows[0][SOURCE] == Some("Direct Sellers")
    ensures Reshape(COLUMNS, [r]).rows[0][ACCOUNT_NAME] == Some("Acme Corp")
    ensures Reshape(COLUMNS, [r]).rows[0][PRICE_PER_SEAT] == Some("10")
    ensures Reshape(COLUMNS, [r]).rows[0][TYPE] == Some(DIRECT)
  {
    ReshapeOtherCells(COLUMNS, [r], 0, SOURCE);
    ReshapeOtherCells(COLUMNS, [r], 0, ACCOUNT_NAME);
    ReshapePrice(COLUMNS, [r], 0);
    ScenarioSourceIsDirect();
    ReshapeType(COLUMNS, [r], 0);
  }

  /**
   * End to end: one page holding the board, include ["direct"], no exclude
   * keywords. The published table has the columns `source`, `account name`,
   * `price per seat`, `type` and one row: "Direct Sellers", "Acme Corp", "10",
   * "Direct".
   */
  lemma ScenarioEndToEnd(boardName: string, title: string)
    requires SourceName(boardName) == "Direct Sellers" && Contains(Lower(boardName), "direct")
    requires Lower(title) == PRICE_PER_SEAT
    ensures var table := Reshape(COLUMNS, RunDeals(COLUMNS, KeywordList(["direct"]), KeywordList([]),
                                                 [[Board(boardName, [ScenarioItem(title)])]]));
      && table.header == [SOURCE, ACCOUNT_NAME, PRICE_PER_SEAT, TYPE]
      && |table.rows| == 1
      && table.rows[0][SOURCE] == Some("Direct Sellers")
      && table.rows[0][ACCOUNT_NAME] == Some("Acme Corp")
      && table.rows[0][PRICE_PER_SEAT] == Some("10")
      && table.rows[0][TYPE] == Some(DIRECT)
  {
    var r := ItemRecord(COLUMNS, boardName, ScenarioItem(title));
    ScenarioRun(boardName, title);
    ScenarioRecord(boardName, title);
    ScenarioTableShape(r);
    ScenarioRow(r);
  }

  /**
   * The example itself: the board "CRM Direct Sellers" whose one item
   * "Acme Corp" has a field titled "price per seat" holding "10".
   */
  lemma ScenarioExample()
    ensures var table := Reshape(COLUMNS, RunDeals(COLUMNS, KeywordList(["direct"]), KeywordList([]),
                                                 [[Board(BOARD_NAME, [ScenarioItem(PRICE_PER_SEAT)])]]));
      && table.header == [SOURCE, ACCOUNT_NAME, PRICE_PER_SEAT, TYPE]
      && |table.rows| == 1
      && table.rows[0][SOURCE] == Some("Direct Sellers")
      && table.rows[0][ACCOUNT_NAME] == Some("Acme Corp")
      && table.rows[0][PRICE_PER_SEAT] == Some("10")
      && table.rows[0][TYPE] == Some(DIRECT)
    ensures RunDeals(COLUMNS, KeywordList([DIRECT]), KeywordList([]), [[Board(BOARD_NAME, [ScenarioItem(PRICE_PER_SEAT)])]]) == []
  {
    SourceOfScenarioBoard();
    ScenarioBoardPasses();
    ScenarioTitle();
    ScenarioEndToEnd(BOARD_NAME, PRICE_PER_SEAT);
    ScenarioRun(BOARD_NAME, PRICE_PER_SEAT);
  }
}
