/** The records the component passes around without looking inside them,
    apart from the two attributes it does read: a well's `uuid` and its
    `wellData.Region`. */
module Wells {
  import opened Wrappers

  /** A `wellData.Region` value as the export code reads it: `None` when
      the attribute is absent (JavaScript `undefined`). */
  type RegionKey = Option<string>

  /** The nested `wellData` object of a well; only `Region` is read. */
  datatype WellData = WellData(region: RegionKey)

  /** A well as returned by the suggest endpoint. `uuid` is `None` when the
      attribute is absent (the empty object `{}` that stands for "no
      selection"), and `wellData` is `None` when that object is missing. */
  datatype Well = Well(uuid: Option<string>, wellData: Option<WellData>)

  /** The empty object `{}` used as "no well selected". */
  const NoWell: Well := Well(None, None)

  /** JavaScript truthiness of a `uuid` attribute: present and not `''`. */
  predicate Truthy(uuid: Option<string>) {
    uuid.Some? && uuid.value != ""
  }

  /** What the record parser is handed: one well (detail export) or the
      wells of one region group (bulk export). */
  datatype Batch = Single(well: Well) | Group(wells: seq<Well>)

  /** One `{ key, value }` entry of the payload given to the spreadsheet
      writer: a region and the parser's output for it. */
  datatype Entry<P> = Entry(key: RegionKey, value: P)
}
