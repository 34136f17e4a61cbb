/**
 * The shape of a board listing returned by the work-management API
 * (`data.boards` of the JSON response), and the transport as an abstract
 * function from query text to that listing.
 */
module QueryMonday {

  /** One titled field of an item: `{title, text}`. */
  datatype ColumnValue = ColumnValue(title: string, text: string)

  /** One item (a deal) of a board: `{name, column_values}`. */
  datatype Item = Item(name: string, columnValues: seq<ColumnValue>)

  /** One board: `{name, items}`. */
  datatype Board = Board(name: string, items: seq<Item>)

  /**
   * `execute_query(query)['data']['boards']`: the POST to the API and the JSON
   * decoding, seen as a function from the query text to the boards it returns.
   */
  type Fetch = string -> seq<Board>
}
