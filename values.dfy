/**
 * Decoded JSON values and the shape of the data lake on disk.
 *
 * A data-lake folder is a listing of entries in directory-listing order. A
 * file entry carries the outcome of decoding it: either the decoded JSON
 * value, or `Unreadable` when opening, reading or decoding it raised.
 */
module Values {

  datatype Option<T> = None | Some(value: T)

  /** A decoded JSON document. Numbers are kept exact (no binary floating point). */
  datatype Json =
    | JNull
    | JBool(b: bool)
    | JNum(n: real)
    | JStr(s: string)
    | JArr(items: seq<Json>)
    | JObj(fields: map<string, Json>)

  /** Python truthiness of a decoded value (`if value:`). */
  predicate Truthy(v: Json)
  {
    match v
    case JNull => false
    case JBool(b) => b
    case JNum(n) => n != 0.0
    case JStr(s) => s != ""
    case JArr(xs) => xs != []
    case JObj(m) => m != map[]
  }

  /** `d.get(key, default)` on a decoded object. */
  function Get(m: map<string, Json>, key: string, default: Json): Json
  {
    if key in m then m[key] else default
  }

  /**
   * The records a decoded file holds: a JSON array is taken element by
   * element, any other value is a one-record file.
   */
  function FileItems(v: Json): (items: seq<Json>)
    ensures v.JArr? ==> items == v.items
    ensures !v.JArr? ==> items == [v]
  {
    if v.JArr? then v.items else [v]
  }

  datatype FileContent = Unreadable | Loaded(value: Json)

  /** One entry of a directory listing. */
  datatype Entry =
    | File(name: string, content: FileContent)
    | Folder(name: string, children: seq<Entry>)

  /** `name.endswith('.json')` */
  predicate IsJsonName(name: string)
  {
    |name| >= 5 && name[|name| - 5..] == ".json"
  }

  /** The first entry of a listing called `name` (`os.path.join` of a folder and a name). */
  function FindEntry(listing: seq<Entry>, name: string): (r: Option<Entry>)
    ensures r.Some? ==> r.value in listing && r.value.name == name
    ensures r.None? <==> forall e :: e in listing ==> e.name != name
  {
    if listing == [] then None
    else if listing[0].name == name then Some(listing[0])
    else FindEntry(listing[1..], name)
  }

  /**
   * The children of sub-folder `name` of a directory whose listing is
   * `parent` (None when the directory itself is missing). None when the
   * sub-folder is missing or is a plain file
   * (`not os.path.exists(p) or not os.path.isdir(p)`).
   */
  function SubFolder(parent: Option<seq<Entry>>, name: string): (r: Option<seq<Entry>>)
    ensures r.Some? ==> parent.Some? && Folder(name, r.value) in parent.value
    ensures parent.Some? && FindEntry(parent.value, name).Some? && FindEntry(parent.value, name).value.Folder? ==> r.Some?
  {
    if parent.None? then None
    else match FindEntry(parent.value, name)
      case Some(Folder(_, children)) => Some(children)
      case _ => None
  }

  /** The file system: the listing of every directory path that exists. */
  type Storage = map<string, seq<Entry>>

  /** `os.listdir(path)` when `path` is an existing directory, None otherwise. */
  function ListDir(storage: Storage, path: string): Option<seq<Entry>>
  {
    if path in storage then Some(storage[path]) else None
  }
}
