/**
 * The code the search API calls but that is not modelled: the geometry
 * library (`turf-area`, `turf-intersect`), `JSON.parse`, the query-DSL
 * builder `queries`, the engine's number formatting, and the configured
 * `API_URL`. Each is a parameter of the model, free to be any function.
 */
module Externals {
  import opened Values

  datatype Host = Host(
    // turf-area: the area of a GeoJSON value
    area: Value -> real,
    // turf-intersect: the overlap of two geometries, `None` for `undefined`
    intersect: (Option<Value>, Option<Value>) -> Option<Value>,
    // JSON.parse: `None` when it throws
    parseJson: string -> Option<Value>,
    // the query-DSL builder of libs/queries.js: `None` when it throws
    queries: map<string, Value> -> Option<Value>,
    // Number.prototype.toString
    showNumber: real -> string,
    // the API_URL environment setting, or its default
    apiUrl: string)
}
