/** The browser facilities the dashboard talks to, reduced to values: the text
    kept under a Web Storage key, toast notifications and navigation. */
module Browser {
  import opened Js

  /** The text stored under a `localStorage` or `sessionStorage` key, described by
      what `JSON.parse` makes of it: either the text parses to `v` (for instance
      because it was written as `JSON.stringify(v)`), or parsing throws. */
  datatype StoredText = Stringified(v: JsValue) | Unparsable(raw: string)

  /** `if (storage.getItem(key))`: an absent key reads as `null` and the empty
      string is falsy; a JSON text is never empty. */
  predicate StoredTruthy(storage: map<string, StoredText>, key: string) {
    key in storage && (storage[key].Unparsable? ==> storage[key].raw != "")
  }

  datatype Level = Success | Error

  /** One notification handed to the toast library. */
  datatype Toast = Toast(level: Level, text: string)
}
