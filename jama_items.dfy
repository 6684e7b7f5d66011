/** The requirement items of the project tree, as the requirements client
    hands them to the spreadsheet exporter and the filters. */
module JamaItems {
  import Text

  /** An item in the client's internal form, reduced to the two keys the
      filters and the hierarchy resolver read: its dotted position in the
      project tree (such as "1.2.3") and its name. */
  datatype Item = Item(sequence: string, name: string)

  /** The dot-separated parts of a sequence, `sequence.split(".")`. */
  function Parts(sequence: string): (parts: seq<string>)
    ensures |parts| >= 1
  {
    Text.Split(sequence, '.')
  }
}
