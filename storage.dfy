/** The device's key-value cache as the app reads it back at start-up
    (App.js:115-141): each list is stored as JSON text under its own key. */
module Storage {

  /** What reading one key and parsing it produced. `Missing` is no value (or an
      empty one) under the key; `Unparsable` is text that `JSON.parse` rejects, or
      a read that failed; `NotAnArray` is valid JSON of another shape. Elements
      of an array are taken as they are: the app does not check their shape. */
  datatype Stored<T> = Missing | Unparsable | NotAnArray | AnArray(items: seq<T>)

}
