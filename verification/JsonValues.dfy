/** JSON values as the Python scripts read them: what `str`, `strip`, truth and
    `json.dumps(sort_keys=True)` see of a value, and nothing else of it. */
module JsonValues {
  import opened Options
  import opened Text

  /** `str` of a number, a boolean, a list or an object is never blank. */
  type NonBlank = s: string | Strip(s) != "" witness "0"

  /** `canonical` is the sorted-key dump, `rendered` is `str`, `truthy` is `bool`. */
  datatype Value = Null | Str(s: string) | Other(canonical: string, rendered: NonBlank, truthy: bool)

  /** A value up to its sorted-key dump. */
  datatype Dumped = NullDump | StrDump(s: string) | OtherDump(canonical: string)

  function Dump(v: Value): Dumped {
    match v
    case Null => NullDump
    case Str(s) => StrDump(s)
    case Other(canonical, _, _) => OtherDump(canonical)
  }

  function Rendered(v: Value): string {
    match v
    case Null => "None"
    case Str(s) => s
    case Other(_, rendered, _) => rendered
  }

  predicate Truthy(v: Value) {
    match v
    case Null => false
    case Str(s) => s != ""
    case Other(_, _, truthy) => truthy
  }
}
