/** JSON documents as JavaScript holds them: object fields in enumeration order. */
module Json {

  datatype Entry = Entry(key: string, value: Json)

  datatype Json =
    | Null
    | Bool(bit: bool)
    | Number(text: string)
    | String(str: string)
    | Array(items: seq<Json>)
    | Object(entries: seq<Entry>)

  /** No two fields of an object share a name. */
  ghost predicate Distinct(entries: seq<Entry>) {
    forall i, j :: 0 <= i < j < |entries| ==> entries[i].key != entries[j].key
  }
}
