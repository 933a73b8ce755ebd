// String helpers shared by the URL rewriting and the SQL rendering.

module Strings {
  /** `sep.join(parts)`: the parts with `sep` between each two of them. */
  function Join(parts: seq<string>, sep: string): string
  {
    if |parts| == 0 then ""
    else if |parts| == 1 then parts[0]
    else Join(parts[..|parts| - 1], sep) + sep + parts[|parts| - 1]
  }
}
