/**
 * The dynamic values that travel through `database/sql/driver.Value` and the
 * `interface{}` cells that `encoding/json` decodes, as a tagged union.
 */
module Values {
  import Text

  datatype Value =
    | Nil                                   // a nil interface value
    | Bool(b: bool)
    | Str(s: string)
    | Int(i: Text.Int64)                    // Go `int`
    | Int64(i: Text.Int64)                  // Go `int64`
    | Float64(text: string)                 // Go `float64`, carried by its `%v` text only
    | Other(typeName: string, text: string) // any other Go type: reflect's type name and `%v` text

  /** What `fmt.Sprintf("%v", v)` prints. */
  function Render(v: Value): string {
    match v
    case Nil => "<nil>"
    case Bool(b) => if b then "true" else "false"
    case Str(s) => s
    case Int(i) => Text.IntToString(i)
    case Int64(i) => Text.IntToString(i)
    case Float64(text) => text
    case Other(_, text) => text
  }
}
