/**
 * The transform stage of the board export: which boards are kept (`check_rules`),
 * how a board becomes one record per item (`create_base`, `extract_columns`),
 * the page loop that gathers the records of every kept board (`extract_deals`)
 * and the reshaping into the published table (`convert_df`).
 *
 * Each step is first defined as a specification function on values, with lemmas
 * stating what it promises; the class `ProcessBoards` then carries the source's
 * loops and its page counter, and each method is proved against those functions.
 */
module ProcessBoards {
  import opened Wrappers
  import opened Strings
  import opened QueryMonday
  import opened Frame
  import opened Seqs

  /** One extracted deal: column name to string value or unset. */
  type Record = Row

  const SOURCE := "source"
  const ACCOUNT_NAME := "account name"
  const PRICE_PER_SEAT := "price per seat"
  const TRADE_PRICE := "trade price"
  const TYPE := "type"
  const PAGE_PLACEHOLDER := "${page_num}"
  const CRM := "CRM"
  const DIRECT := "Direct"
  const INDEPENDENT_RESELLER := "Independent Reseller"

  /**
   * A keyword rule as the YAML configuration gives it: a single string, a list
   * of strings, or anything else (which the rule check ignores).
   */
  datatype Rule = Keyword(word: string) | KeywordList(words: seq<string>) | Unrecognised

  // ===== create_base =====

  /** Every configured column, unset. */
  function Base(columns: seq<string>): Record {
    map c | c in columns :: None
  }

  // ===== check_rules =====

  /** The keywords a rule contributes checks for. */
  function Keywords(rule: Rule): seq<string> {
    match rule
    case Keyword(w) => [w]
    case KeywordList(ws) => ws
    case Unrecognised => []
  }

  /** A (lowercased) board name passes when it contains every include keyword and no exclude keyword. */
  predicate RulesPass(includeRule: Rule, excludeRule: Rule, name: string) {
    && (forall kw :: kw in Keywords(includeRule) ==> Contains(name, kw))
    && (forall kw :: kw in Keywords(excludeRule) ==> !Contains(name, kw))
  }

  /** The checks `check_rules` collects for include keywords: one presence test each, in order. */
  function PresenceChecks(name: string, kws: seq<string>): seq<bool>
    decreases |kws|
  {
    if kws == [] then [] else PresenceChecks(name, kws[..|kws| - 1]) + [Contains(name, kws[|kws| - 1])]
  }

  /** The checks it collects for exclude keywords: one absence test each, in order. */
  function AbsenceChecks(name: string, kws: seq<string>): seq<bool>
    decreases |kws|
  {
    if kws == [] then [] else AbsenceChecks(name, kws[..|kws| - 1]) + [!Contains(name, kws[|kws| - 1])]
  }

  /** Python's `all(bs)`. */
  predicate AllTrue(bs: seq<bool>) {
    forall i :: 0 <= i < |bs| ==> bs[i]
  }

  lemma AllTrueAppend(a: seq<bool>, b: seq<bool>)
    ensures AllTrue(a + b) <==> AllTrue(a) && AllTrue(b)
  {
    assert forall i :: 0 <= i < |a| ==> (a + b)[i] == a[i];
    assert forall i :: 0 <= i < |b| ==> (a + b)[|a| + i] == b[i];
  }

  lemma {:induction false} PresenceChecksAll(name: string, kws: seq<string>)
    ensures AllTrue(PresenceChecks(name, kws)) <==> forall kw :: kw in kws ==> Contains(name, kw)
    decreases |kws|
  {
    if kws != [] {
      var front, last := kws[..|kws| - 1], kws[|kws| - 1];
      var check := Contains(name, last);
      PresenceChecksAll(name, front);
      assert PresenceChecks(name, kws) == PresenceChecks(name, front) + [check];
      AllTrueAppend(PresenceChecks(name, front), [check]);
      assert [check][0] == check;
      assert kws == front + [last];
      if forall kw :: kw in front ==> Contains(name, kw) {
        if check {
          forall kw | kw in kws ensures Contains(name, kw) {
            if kw != last {
              assert kw in front;
            }
          }
        } else {
          assert last in kws;
        }
      } else {
        var kw :| kw in front && !Contains(name, kw);
        assert kw in kws;
      }
    }
  }



  lemma {:induction false} AbsenceChecksAll(name: string, kws: seq<string>)
    ensures AllTrue(AbsenceChecks(name, kws)) <==> forall kw :: kw in kws ==> !Contains(name, kw)
    decreases |kws|
  {
    if kws != [] {
      var front, last := kws[..|kws| - 1], kws[|kws| - 1];
      var check := !Contains(name, last);
      AbsenceChecksAll(name, front);
      assert AbsenceChecks(name, kws) == AbsenceChecks(name, front) + [check];
      AllTrueAppend(AbsenceChecks(name, front), [check]);
      assert [check][0] == check;
      assert kws == front + [last];
      if forall kw :: kw in front ==> !Contains(name, kw) {
        if check {
          forall kw | kw in kws ensures !Contains(name, kw) {
            if kw != last {
              assert kw in front;
            }
          }
        } else {
          assert last in kws;
        }
      } else {
        var kw :| kw in front && Contains(name, kw);
        assert kw in kws;
      }
    }
  }



  /** `all(board_rules)` over the collected checks is exactly the rule predicate. */
  lemma AllChecksIffRulesPass(includeRule: Rule, excludeRule: Rule, name: string)
    ensures AllTrue(PresenceChecks(name, Keywords(includeRule)) + AbsenceChecks(name, Keywords(excludeRule)))
            <==> RulesPass(includeRule, excludeRule, name)
  {
    var pc, ac := PresenceChecks(name, Keywords(includeRule)), AbsenceChecks(name, Keywords(excludeRule));
    PresenceChecksAll(name, Keywords(includeRule));
    AbsenceChecksAll(name, Keywords(excludeRule));
    AllTrueAppend(pc, ac);
  }

  /** A single-string rule behaves exactly like the one-element list holding it. */
  lemma SingleKeywordIsList(w: string, other: Rule, name: string)
    ensures RulesPass(Keyword(w), other, name) == RulesPass(KeywordList([w]), other, name)
    ensures RulesPass(other, Keyword(w), name) == RulesPass(other, KeywordList([w]), name)
  {
  }

  /** An empty list and an unrecognised field contribute no checks. */
  lemma EmptyRulesPassVacuously(rule: Rule, name: string)
    ensures RulesPass(Unrecognised, rule, name) == RulesPass(KeywordList([]), rule, name)
    ensures RulesPass(rule, Unrecognised, name) == RulesPass(rule, KeywordList([]), name)
    ensures RulesPass(Unrecognised, Unrecognised, name) && RulesPass(KeywordList([]), KeywordList([]), name)
  {
  }

  /** Excluding one more keyword that the name does not contain never changes the verdict. */
  lemma AbsentExcludeIrrelevant(includeRule: Rule, excludeRule: Rule, kw: string, name: string)
    requires !Contains(name, kw)
    ensures RulesPass(includeRule, KeywordList(Keywords(excludeRule) + [kw]), name) == RulesPass(includeRule, excludeRule, name)
  {
  }

  /**
   * Board names are lowercased before the check, so an include keyword with an
   * upper-case letter rejects every board.
   */
  lemma CapitalisedIncludeRejects(includeRule: Rule, excludeRule: Rule, boardName: string, kw: string, j: int)
    requires kw in Keywords(includeRule) && 0 <= j < |kw| && IsUpper(kw[j])
    ensures !RulesPass(includeRule, excludeRule, Lower(boardName))
  {
    UppercaseNeverInLower(boardName, kw, j);
  }

  // ===== extract_columns =====

  /** `' '.join(name.replace('CRM', '').split())`. */
  function SourceName(boardName: string): string {
    Collapse(ReplaceAll(boardName, CRM, ""))
  }

  /** The source name is trimmed and single-spaced, and keeps every other character of the board name in order. */
  lemma SourceNameCollapsed(boardName: string)
    ensures IsCollapsed(SourceName(boardName))
    ensures NonSpace(SourceName(boardName)) == NonSpace(ReplaceAll(boardName, CRM, ""))
  {
    CollapseSpec(ReplaceAll(boardName, CRM, ""));
  }

  /** Removing "CRM" once can leave a new "CRM" behind. */
  lemma SourceNameMayKeepCrm()
    ensures SourceName("CRCRMM") == "CRM"
  {
    var s := "CRCRMM";
    assert s[..3][2] == 'C' && s[1..][..3][0] == 'R';
    assert !StartsWith(s, CRM) && !StartsWith(s[1..], CRM) && StartsWith(s[2..], CRM);
    assert s[2..][3..] == "M";
    assert ReplaceAll("M", CRM, "") == "M";
    assert ReplaceAll(s, CRM, "") == "CRM";
    WordsOfWordThen("CRM", []);
    assert "CRM" + [] == "CRM";
  }

  /** True when column value `cv` is written to `key`: its lowercased title is `key`, a configured column. */
  predicate Selects(columns: seq<string>, cv: ColumnValue, key: string) {
    Lower(cv.title) == key && key in columns
  }

  /** One step of the inner loop: an allow-listed title copies its text. */
  function SetValue(columns: seq<string>, d: Record, cv: ColumnValue): Record {
    var title := Lower(cv.title);
    if title in columns then d[title := Some(cv.text)] else d
  }

  /** The column values applied to `d` in order. */
  function ApplyValues(columns: seq<string>, d: Record, cvs: seq<ColumnValue>): Record
    decreases |cvs|
  {
    if cvs == [] then d
    else SetValue(columns, ApplyValues(columns, d, cvs[..|cvs| - 1]), cvs[|cvs| - 1])
  }

  /** Column values add no keys to a record that already holds every configured column. */
  lemma {:induction false} ApplyValuesKeys(columns: seq<string>, d: Record, cvs: seq<ColumnValue>)
    requires forall c :: c in columns ==> c in d
    ensures ApplyValues(columns, d, cvs).Keys == d.Keys
    decreases |cvs|
  {
    if cvs != [] {
      ApplyValuesKeys(columns, d, cvs[..|cvs| - 1]);
    }
  }

  /** The last column value selecting `key` decides its value. */
  lemma {:induction false} ApplyValuesLast(columns: seq<string>, d: Record, cvs: seq<ColumnValue>, key: string, j: int)
    requires 0 <= j < |cvs| && Selects(columns, cvs[j], key)
    requires forall k :: j < k < |cvs| ==> !Selects(columns, cvs[k], key)
    ensures key in ApplyValues(columns, d, cvs)
    ensures ApplyValues(columns, d, cvs)[key] == Some(cvs[j].text)
    decreases |cvs|
  {
    var front := cvs[..|cvs| - 1];
    if j < |cvs| - 1 {
      assert forall k :: j < k < |front| ==> front[k] == cvs[k];
      ApplyValuesLast(columns, d, front, key, j);
    }
  }

  /** A key no column value selects keeps what it had: nothing else changes. */
  lemma {:induction false} ApplyValuesUnselected(columns: seq<string>, d: Record, cvs: seq<ColumnValue>, key: string)
    requires forall k :: 0 <= k < |cvs| ==> !Selects(columns, cvs[k], key)
    ensures key in ApplyValues(columns, d, cvs) <==> key in d
    ensures key in d ==> ApplyValues(columns, d, cvs)[key] == d[key]
    decreases |cvs|
  {
    if cvs != [] {
      var front := cvs[..|cvs| - 1];
      assert forall k :: 0 <= k < |front| ==> front[k] == cvs[k];
      ApplyValuesUnselected(columns, d, front, key);
    }
  }

  /** The record before any column value: the base, then `source`, then `account name`. */
  function Seeded(columns: seq<string>, boardName: string, item: Item): Record {
    Base(columns)[SOURCE := Some(SourceName(boardName))][ACCOUNT_NAME := Some(item.name)]
  }

  /** The record `extract_columns` builds for one item of a board named `boardName`. */
  function ItemRecord(columns: seq<string>, boardName: string, item: Item): Record {
    ApplyValues(columns, Seeded(columns, boardName, item), item.columnValues)
  }

  /** What a key holds when no column value overwrites it. */
  function DefaultValue(boardName: string, item: Item, key: string): Option<string> {
    if key == ACCOUNT_NAME then Some(item.name)
    else if key == SOURCE then Some(SourceName(boardName))
    else None
  }

  /** A record has exactly the configured columns plus `source` and `account name`. */
  lemma ItemRecordKeys(columns: seq<string>, boardName: string, item: Item)
    ensures ItemRecord(columns, boardName, item).Keys == (set c | c in columns) + {SOURCE, ACCOUNT_NAME}
  {
    ApplyValuesKeys(columns, Seeded(columns, boardName, item), item.columnValues);
  }

  /** Without a selecting column value a key keeps its default: the source name, the item name, or unset. */
  lemma ItemRecordDefault(columns: seq<string>, boardName: string, item: Item, key: string)
    requires key in columns || key == SOURCE || key == ACCOUNT_NAME
    requires forall k :: 0 <= k < |item.columnValues| ==> !Selects(columns, item.columnValues[k], key)
    ensures key in ItemRecord(columns, boardName, item)
    ensures ItemRecord(columns, boardName, item)[key] == DefaultValue(boardName, item, key)
  {
    ApplyValuesUnselected(columns, Seeded(columns, boardName, item), item.columnValues, key);
  }

  /** Otherwise the text of the last selecting column value wins. */
  lemma ItemRecordOverride(columns: seq<string>, boardName: string, item: Item, key: string, j: int)
    requires 0 <= j < |item.columnValues| && Selects(columns, item.columnValues[j], key)
    requires forall k :: j < k < |item.columnValues| ==> !Selects(columns, item.columnValues[k], key)
    ensures key in ItemRecord(columns, boardName, item)
    ensures ItemRecord(columns, boardName, item)[key] == Some(item.columnValues[j].text)
  {
    ApplyValuesLast(columns, Seeded(columns, boardName, item), item.columnValues, key, j);
  }

  /** A key that already holds a value still holds one after the column values: they only write texts. */
  lemma {:induction false} ApplyValuesKeepsSet(columns: seq<string>, d: Record, cvs: seq<ColumnValue>, key: string)
    requires Cell(d, key).Some?
    ensures Cell(ApplyValues(columns, d, cvs), key).Some?
    decreases |cvs|
  {
    if cvs != [] {
      ApplyValuesKeepsSet(columns, d, cvs[..|cvs| - 1], key);
    }
  }

  /** Every record of an item holds a `source` value, whatever its column values. */
  lemma ItemSourceSet(columns: seq<string>, boardName: string, item: Item)
    ensures Cell(ItemRecord(columns, boardName, item), SOURCE).Some?
  {
    ApplyValuesKeepsSet(columns, Seeded(columns, boardName, item), item.columnValues, SOURCE);
  }

  /** One record per item, in item order. */
  function ExtractBoard(columns: seq<string>, board: Board): seq<Record> {
    seq(|board.items|, i requires 0 <= i < |board.items| => ItemRecord(columns, board.name, board.items[i]))
  }

  // ===== extract_deals =====

  /** The query for a page: the template with every `${page_num}` replaced by the page number. */
  function Query(template: string, page: nat): string {
    ReplaceAll(template, PAGE_PLACEHOLDER, NatToString(page))
  }

  /**
   * The first placeholder of the template is replaced by the page number, and
   * the replacement goes on after it: `${page_num}` occurrences are substituted
   * left to right and the text between them is kept.
   */
  lemma QuerySubstitutes(before: string, after: string, page: nat)
    requires !Contains(before + PAGE_PLACEHOLDER[..|PAGE_PLACEHOLDER| - 1], PAGE_PLACEHOLDER)
    ensures Query(before + PAGE_PLACEHOLDER + after, page) == before + NatToString(page) + Query(after, page)
  {
    ReplaceFirst(before, PAGE_PLACEHOLDER, after, NatToString(page));
  }

  /** When the template holds `${page_num}`, different pages send different queries. */
  lemma QueryInjective(template: string, p: nat, q: nat)
    requires Contains(template, PAGE_PLACEHOLDER) && p != q
    ensures Query(template, p) != Query(template, q)
  {
    NatToStringRoundTrip(p);
    NatToStringRoundTrip(q);
    ReplaceInjective(template, PAGE_PLACEHOLDER, NatToString(p), NatToString(q));
  }

  /** A template without the placeholder is sent unchanged for every page. */
  lemma QueryWithoutPlaceholder(template: string, page: nat)
    requires !Contains(template, PAGE_PLACEHOLDER)
    ensures Query(template, page) == template
  {
    ReplaceAbsent(template, PAGE_PLACEHOLDER, NatToString(page));
  }

  /** The records one board contributes: all of them when its lowercased name passes the rules, none otherwise. */
  function BoardDeals(columns: seq<string>, includeRule: Rule, excludeRule: Rule, board: Board): seq<Record> {
    if RulesPass(includeRule, excludeRule, Lower(board.name)) then ExtractBoard(columns, board) else []
  }

  /** The records of a page: each board's, in board order. */
  function PageDeals(columns: seq<string>, includeRule: Rule, excludeRule: Rule, boards: seq<Board>): seq<Record> {
    FlatMap((b: Board) => BoardDeals(columns, includeRule, excludeRule, b), boards)
  }

  /** A page's records are its parts' records, concatenated. */
  lemma PageDealsAppend(columns: seq<string>, includeRule: Rule, excludeRule: Rule, a: seq<Board>, b: seq<Board>)
    ensures PageDeals(columns, includeRule, excludeRule, a + b)
            == PageDeals(columns, includeRule, excludeRule, a) + PageDeals(columns, includeRule, excludeRule, b)
  {
    FlatMapAppend((b: Board) => BoardDeals(columns, includeRule, excludeRule, b), a, b);
  }

  /** The records of a page's first `i + 1` boards: those of the first `i`, then the next board's. */
  lemma ThroughNextBoard(columns: seq<string>, includeRule: Rule, excludeRule: Rule, boards: seq<Board>, i: int)
    requires 0 <= i < |boards|
    ensures PageDeals(columns, includeRule, excludeRule, boards[..i + 1])
            == PageDeals(columns, includeRule, excludeRule, boards[..i]) + BoardDeals(columns, includeRule, excludeRule, boards[i])
  {
    assert boards[..i + 1][..i] == boards[..i];
  }

  /** The records of a run of pages, in page order. */
  function RunDeals(columns: seq<string>, includeRule: Rule, excludeRule: Rule, pages: seq<seq<Board>>): seq<Record> {
    FlatMap((boards: seq<Board>) => PageDeals(columns, includeRule, excludeRule, boards), pages)
  }

  /** Every record of a run holds a `source` value, as the conversion step needs. */
  lemma RunDealsSourceSet(columns: seq<string>, includeRule: Rule, excludeRule: Rule, pages: seq<seq<Board>>)
    ensures forall r :: r in RunDeals(columns, includeRule, excludeRule, pages) ==> Cell(r, SOURCE).Some?
  {
    var sourced := (r: Record) => Cell(r, SOURCE).Some?;
    var board := (b: Board) => BoardDeals(columns, includeRule, excludeRule, b);
    var page := (boards: seq<Board>) => PageDeals(columns, includeRule, excludeRule, boards);
    forall b: Board, r | r in board(b) ensures sourced(r) {
      var rs := ExtractBoard(columns, b);
      var i :| 0 <= i < |rs| && rs[i] == r;
      ItemSourceSet(columns, b.name, b.items[i]);
    }
    forall boards: seq<Board> ensures forall r :: r in page(boards) ==> sourced(r) {
      FlatMapAll(board, boards, sourced);
    }
    FlatMapAll(page, pages, sourced);
  }

  // ===== convert_df =====

  /** The published columns: the configured ones and `type`, without `trade price`. */
  function OutputColumns(columns: seq<string>): seq<string> {
    Without(columns + [TYPE], TRADE_PRICE)
  }

  /** A published cell: `type` from the source prefix, `price per seat` coalesced with `trade price`, the rest copied. */
  function ReshapedCell(r: Record, key: string): Option<string> {
    if key == TYPE then Some(if CellStartsWith(r, SOURCE, DIRECT) then DIRECT else INDEPENDENT_RESELLER)
    else if key == PRICE_PER_SEAT && Cell(r, PRICE_PER_SEAT).None? then Cell(r, TRADE_PRICE)
    else Cell(r, key)
  }

  function ReshapedRow(columns: seq<string>, r: Record): Row {
    map k | k in OutputColumns(columns) :: ReshapedCell(r, k)
  }

  /** The table `convert_df` returns for `records`. */
  function Reshape(columns: seq<string>, records: seq<Record>): Table {
    Table(OutputColumns(columns), seq(|records|, i requires 0 <= i < |records| => ReshapedRow(columns, records[i])))
  }

  /** The columns, in order, are the configured ones without `trade price`, then `type`; each row has exactly those. */
  lemma ReshapeColumns(columns: seq<string>, records: seq<Record>)
    ensures Reshape(columns, records).header == Without(columns, TRADE_PRICE) + [TYPE]
    ensures TRADE_PRICE !in Reshape(columns, records).header
    ensures |Reshape(columns, records).rows| == |records|
    ensures forall i :: 0 <= i < |records| ==>
      Reshape(columns, records).rows[i].Keys == set k | k in Reshape(columns, records).header
  {
    WithoutAppend(columns, [TYPE], TRADE_PRICE);
  }

  /** A set `price per seat` (even the empty string) is kept; only an unset one takes the row's `trade price`. */
  lemma ReshapePrice(columns: seq<string>, records: seq<Record>, i: int)
    requires PRICE_PER_SEAT in columns && 0 <= i < |records|
    ensures PRICE_PER_SEAT in Reshape(columns, records).rows[i]
    ensures Cell(records[i], PRICE_PER_SEAT).Some? ==>
      Reshape(columns, records).rows[i][PRICE_PER_SEAT] == Cell(records[i], PRICE_PER_SEAT)
    ensures Cell(records[i], PRICE_PER_SEAT).None? ==>
      Reshape(columns, records).rows[i][PRICE_PER_SEAT] == Cell(records[i], TRADE_PRICE)
  {
  }

  /** `type` is "Direct" exactly when `source` starts with "Direct" (case-sensitive), and "Independent Reseller" otherwise. */
  lemma ReshapeType(columns: seq<string>, records: seq<Record>, i: int)
    requires 0 <= i < |records|
    ensures TYPE in Reshape(columns, records).rows[i]
    ensures Reshape(columns, records).rows[i][TYPE] == Some(DIRECT) <==> CellStartsWith(records[i], SOURCE, DIRECT)
    ensures !CellStartsWith(records[i], SOURCE, DIRECT) ==> Reshape(columns, records).rows[i][TYPE] == Some(INDEPENDENT_RESELLER)
  {
  }

  /** Other configured columns are copied, missing keys read as unset, and keys outside the columns are dropped. */
  lemma ReshapeOtherCells(columns: seq<string>, records: seq<Record>, i: int, key: string)
    requires 0 <= i < |records|
    requires key != PRICE_PER_SEAT && key != TRADE_PRICE && key != TYPE
    ensures key in columns ==> key in Reshape(columns, records).rows[i]
                               && Reshape(columns, records).rows[i][key] == Cell(records[i], key)
    ensures key !in columns ==> key !in Reshape(columns, records).rows[i]
  {
  }

  /** One row through the `convert_df` steps, in the order the data frame applies them. */
  ghost function ConvertedRow(columns: seq<string>, r: Record): Row
    requires PRICE_PER_SEAT in columns && TRADE_PRICE in columns && SOURCE in columns
  {
    var r0 := Reindexed(r, columns + [TYPE]);
    var r1 := if r0[PRICE_PER_SEAT].None? then r0[PRICE_PER_SEAT := r0[TRADE_PRICE]] else r0;
    var r2 := r1 - {TRADE_PRICE};
    var r3 := r2[TYPE := Some(INDEPENDENT_RESELLER)];
    if CellStartsWith(r3, SOURCE, DIRECT) then r3[TYPE := Some(DIRECT)] else r3
  }

  /** The steps keep exactly the published columns. */
  lemma ConvertedRowKeys(columns: seq<string>, r: Record, k: string)
    requires PRICE_PER_SEAT in columns && TRADE_PRICE in columns && SOURCE in columns
    ensures k in ConvertedRow(columns, r) <==> k in OutputColumns(columns)
  {
    assert k in ConvertedRow(columns, r) <==> k in columns + [TYPE] && k != TRADE_PRICE;
  }

  /** Each kept cell is the published one. */
  lemma ConvertedRowCell(columns: seq<string>, r: Record, k: string)
    requires PRICE_PER_SEAT in columns && TRADE_PRICE in columns && SOURCE in columns
    requires k in OutputColumns(columns)
    ensures k in ConvertedRow(columns, r) && ConvertedRow(columns, r)[k] == ReshapedCell(r, k)
  {
    ConvertedRowKeys(columns, r, k);
    var r0 := Reindexed(r, columns + [TYPE]);
    var r1 := if r0[PRICE_PER_SEAT].None? then r0[PRICE_PER_SEAT := r0[TRADE_PRICE]] else r0;
    var r3 := (r1 - {TRADE_PRICE})[TYPE := Some(INDEPENDENT_RESELLER)];
    assert r3[SOURCE] == Cell(r, SOURCE);
    if k != TYPE && k != PRICE_PER_SEAT {
      assert ConvertedRow(columns, r)[k] == r0[k];
    }
  }

  /** The steps compose to the published row. */
  lemma ConvertedRowIsReshaped(columns: seq<string>, r: Record)
    requires PRICE_PER_SEAT in columns && TRADE_PRICE in columns && SOURCE in columns
    ensures ConvertedRow(columns, r) == ReshapedRow(columns, r)
  {
    var c, d := ConvertedRow(columns, r), ReshapedRow(columns, r);
    forall k ensures k in c <==> k in d {
      ConvertedRowKeys(columns, r, k);
    }
    forall k | k in c ensures c[k] == d[k] {
      ConvertedRowKeys(columns, r, k);
      ConvertedRowCell(columns, r, k);
    }
  }

  /** A table whose header and rows are the converted ones is the published table. */
  lemma ConvertedTable(columns: seq<string>, records: seq<Record>, table: Table)
    requires PRICE_PER_SEAT in columns && TRADE_PRICE in columns && SOURCE in columns
    requires table.header == Without(columns + [TYPE], TRADE_PRICE) && |table.rows| == |records|
    requires forall i :: 0 <= i < |records| ==> table.rows[i] == ConvertedRow(columns, records[i])
    ensures table == Reshape(columns, records)
  {
    forall i | 0 <= i < |records| ensures table.rows[i] == Reshape(columns, records).rows[i] {
      ConvertedRowIsReshaped(columns, records[i]);
    }
  }

  // ===== the processor =====

  class ProcessBoards {
    const columnsList: seq<string>
    const includeRule: Rule
    const excludeRule: Rule
    const queryTemplate: string
    /** The page the next query asks for. */
    var pageNum: nat

    /** The configuration already read from its files; the page counter starts at 1. */
    constructor (columnsList: seq<string>, includeRule: Rule, excludeRule: Rule, queryTemplate: string)
      ensures this.columnsList == columnsList && this.includeRule == includeRule
      ensures this.excludeRule == excludeRule && this.queryTemplate == queryTemplate
      ensures pageNum == 1
    {
      this.columnsList := columnsList;
      this.includeRule := includeRule;
      this.excludeRule := excludeRule;
      this.queryTemplate := queryTemplate;
      pageNum := 1;
    }

    /** A record with a key for every column, and every value unset. */
    method CreateBase(columns: seq<string>) returns (d: Record)
      ensures d.Keys == set c | c in columns
      ensures forall k :: k in d ==> d[k] == None
      ensures d == Base(columns)
    {
      d := map[];
      for i := 0 to |columns|
        invariant d.Keys == set c | c in columns[..i]
        invariant forall k :: k in d ==> d[k] == None
      {
        assert columns[..i + 1] == columns[..i] + [columns[i]];
        d := d[columns[i] := None];
      }
      assert columns[..|columns|] == columns;
    }

    /** The presence tests of `check_rules` for the include field, one per keyword, in order. */
    method IncludeChecks(boardName: string) returns (boardRules: seq<bool>)
      ensures boardRules == PresenceChecks(boardName, Keywords(includeRule))
    {
      boardRules := [];
      match includeRule {
        case Keyword(w) =>
          boardRules := boardRules + [Contains(boardName, w)];
          assert [w][..0] == [];
        case KeywordList(ws) =>
          for i := 0 to |ws|
            invariant boardRules == PresenceChecks(boardName, ws[..i])
          {
            assert ws[..i + 1][..i] == ws[..i];
            boardRules := boardRules + [Contains(boardName, ws[i])];
          }
          assert ws[..|ws|] == ws;
        case Unrecognised =>
      }
    }

    /** The absence tests of `check_rules` for the exclude field, one per keyword, in order. */
    method ExcludeChecks(boardName: string) returns (boardRules: seq<bool>)
      ensures boardRules == AbsenceChecks(boardName, Keywords(excludeRule))
    {
      boardRules := [];
      match excludeRule {
        case Keyword(w) =>
          boardRules := boardRules + [!Contains(boardName, w)];
          assert [w][..0] == [];
        case KeywordList(ws) =>
          for i := 0 to |ws|
            invariant boardRules == AbsenceChecks(boardName, ws[..i])
          {
            assert ws[..i + 1][..i] == ws[..i];
            boardRules := boardRules + [!Contains(boardName, ws[i])];
          }
          assert ws[..|ws|] == ws;
        case Unrecognised =>
      }
    }

    /**
     * True when the board name contains every include keyword and none of the
     * exclude keywords: the conjunction of the collected checks.
     */
    method CheckRules(boardName: string) returns (ok: bool)
      ensures ok <==> RulesPass(includeRule, excludeRule, boardName)
    {
      var boardRules := IncludeChecks(boardName);
      var excludeRules := ExcludeChecks(boardName);
      boardRules := boardRules + excludeRules;
      ok := forall i | 0 <= i < |boardRules| :: boardRules[i];
      assert ok == AllTrue(boardRules);
      AllChecksIffRulesPass(includeRule, excludeRule, boardName);
    }

    /** One record per item of the board, in item order. */
    method ExtractColumns(board: Board) returns (results: seq<Record>)
      ensures |results| == |board.items|
      ensures forall i :: 0 <= i < |results| ==> results[i] == ItemRecord(columnsList, board.name, board.items[i])
      ensures results == ExtractBoard(columnsList, board)
    {
      results := [];
      var boardName := board.name;
      for i := 0 to |board.items|
        invariant |results| == i
        invariant forall j :: 0 <= j < i ==> results[j] == ItemRecord(columnsList, boardName, board.items[j])
      {
        var item := board.items[i];
        var deal := CreateBase(columnsList);
        deal := deal[SOURCE := Some(Collapse(ReplaceAll(boardName, CRM, "")))];
        var dealName := item.name;
        deal := deal[ACCOUNT_NAME := Some(dealName)];
        ghost var seeded := deal;
        assert seeded == Seeded(columnsList, boardName, item);
        for k := 0 to |item.columnValues|
          invariant deal == ApplyValues(columnsList, seeded, item.columnValues[..k])
        {
          var col := item.columnValues[k];
          var title := Lower(col.title);
          if title in columnsList {
            var val := col.text;
            deal := deal[title := Some(val)];
          }
          assert item.columnValues[..k + 1][..k] == item.columnValues[..k];
        }
        assert item.columnValues[..|item.columnValues|] == item.columnValues;
        results := results + [deal];
      }
    }

    /** The board loop of one page: the records of every board whose lowercased name passes the rules, in board order. */
    method ExtractPage(queryResults: seq<Board>) returns (results: seq<Record>)
      ensures results == PageDeals(columnsList, includeRule, excludeRule, queryResults)
    {
      results := [];
      for i := 0 to |queryResults|
        invariant results == PageDeals(columnsList, includeRule, excludeRule, queryResults[..i])
      {
        var board := queryResults[i];
        ghost var sofar := results;
        var boardName := Lower(board.name);
        var passes := CheckRules(boardName);
        if passes {
          var boardResults := ExtractColumns(board);
          results := results + boardResults;
        }
        assert results == sofar + BoardDeals(columnsList, includeRule, excludeRule, board);
        ThroughNextBoard(columnsList, includeRule, excludeRule, queryResults, i);
      }
      assert queryResults[..|queryResults|] == queryResults;
    }

    /**
     * The page loop. Starting at the current counter, it queries page after page
     * and stops at the first page that returns no boards, leaving the counter on
     * that page. `last` is some page at or after the counter that returns no
     * boards; it exists only for the proof of termination. `pages` are the
     * non-empty board lists received, in order; page `p` is asked for with the
     * query text `Query(queryTemplate, p)`.
     */
    method ExtractDeals(fetch: Fetch, ghost last: nat)
      returns (results: seq<Record>, ghost pages: seq<seq<Board>>)
      requires pageNum <= last && fetch(Query(queryTemplate, last)) == []
      modifies this`pageNum
      ensures old(pageNum) <= pageNum <= last
      ensures fetch(Query(queryTemplate, pageNum)) == []
      ensures |pages| == pageNum - old(pageNum)
      ensures forall i :: 0 <= i < |pages| ==> pages[i] != [] && pages[i] == fetch(Query(queryTemplate, old(pageNum) + i))
      ensures results == RunDeals(columnsList, includeRule, excludeRule, pages)
    {
      results, pages := [], [];
      while true
        invariant old(pageNum) <= pageNum <= last
        invariant |pages| == pageNum - old(pageNum)
        invariant forall i :: 0 <= i < |pages| ==> pages[i] != [] && pages[i] == fetch(Query(queryTemplate, old(pageNum) + i))
        invariant results == RunDeals(columnsList, includeRule, excludeRule, pages)
        decreases last - pageNum
      {
        var query := Query(queryTemplate, pageNum);
        var queryResults := fetch(query);
        if |queryResults| < 1 {
          break;
        }
        var pageResults := ExtractPage(queryResults);
        results := results + pageResults;
        assert (pages + [queryResults])[..|pages|] == pages;
        pages := pages + [queryResults];
        pageNum := pageNum + 1;
      }
    }

    /**
     * The published table: records re-indexed to the columns and `type`,
     * `price per seat` filled from `trade price`, `trade price` dropped, and
     * `type` set from the source prefix. Reading the three named columns fails
     * when they are not configured, and the prefix mask fails on an unset source.
     */
    method ConvertDf(results: seq<Record>) returns (table: Table)
      requires PRICE_PER_SEAT in columnsList && TRADE_PRICE in columnsList && SOURCE in columnsList
      requires forall i :: 0 <= i < |results| ==> Cell(results[i], SOURCE).Some?
      ensures table == Reshape(columnsList, results)
    {
      var dfBoards := new DataFrame.FromRecords(results, columnsList + [TYPE]);
      ghost var reindexed := dfBoards.rows;
      dfBoards.FillNa(PRICE_PER_SEAT, TRADE_PRICE);
      ghost var filled := dfBoards.rows;
      dfBoards.Drop(TRADE_PRICE);
      ghost var dropped := dfBoards.rows;
      dfBoards.AssignAll(TYPE, INDEPENDENT_RESELLER);
      ghost var typed := dfBoards.rows;
      forall i | 0 <= i < |typed| ensures typed[i][SOURCE] == Cell(results[i], SOURCE) {
        assert typed[i][SOURCE] == dropped[i][SOURCE] == filled[i][SOURCE] == reindexed[i][SOURCE];
      }
      dfBoards.AssignWhereStartsWith(TYPE, DIRECT, SOURCE, DIRECT);
      table := Table(dfBoards.header, dfBoards.rows);
      ConvertedTable(columnsList, results, table);
    }
  }
}
