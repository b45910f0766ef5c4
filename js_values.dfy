/** JavaScript scalar values as the dashboard meets them in parsed CSV rows and
    JSON payloads, with JavaScript's truthiness, `String(v)` and the
    `String(v || "")` / `parseX(...) || 0` idioms built on them. */
module JsValues {
  import opened Wrappers
  import opened JsText

  /** A scalar cell. A number carries `shown`, the text that `String(value)`
      gives for it; the parsers re-read that text, exactly as JavaScript does. */
  datatype Cell =
    | Undefined
    | Null
    | Bool(b: bool)
    | Number(value: real, shown: string)
    | Text(s: string)

  /** JavaScript truthiness. */
  predicate Truthy(c: Cell) {
    match c
    case Undefined => false
    case Null => false
    case Bool(b) => b
    case Number(v, _) => v != 0.0
    case Text(s) => s != ""
  }

  /** `String(c)` */
  function ToText(c: Cell): string {
    match c
    case Undefined => "undefined"
    case Null => "null"
    case Bool(b) => if b then "true" else "false"
    case Number(_, shown) => shown
    case Text(s) => s
  }

  /** `String(c1 || c2 || ... || "")`: the text of the first truthy candidate,
      or the empty string when there is none. */
  function FirstText(cs: seq<Cell>): string
  {
    if cs == [] then ""
    else if Truthy(cs[0]) then ToText(cs[0])
    else FirstText(cs[1..])
  }

  /** The text is that of the first truthy candidate, or empty when no candidate
      is truthy. */
  lemma {:induction false} FirstTextSpec(cs: seq<Cell>)
    ensures (forall i :: 0 <= i < |cs| ==> !Truthy(cs[i])) ==> FirstText(cs) == ""
    ensures forall i :: 0 <= i < |cs| && Truthy(cs[i]) && (forall j :: 0 <= j < i ==> !Truthy(cs[j]))
              ==> FirstText(cs) == ToText(cs[i])
  {
    if cs != [] {
      FirstTextSpec(cs[1..]);
      if !Truthy(cs[0]) {
        forall i | 0 <= i < |cs| && Truthy(cs[i]) && (forall j :: 0 <= j < i ==> !Truthy(cs[j]))
          ensures FirstText(cs) == ToText(cs[i])
        {
          assert i > 0;
          assert forall j :: 0 <= j < i - 1 ==> !Truthy(cs[1..][j]);
        }
      }
    }
  }

  /** `parseInt(s, 10) || 0`: `NaN` (and `-0`) become 0. */
  function IntOrZero(s: string): real {
    match ParseInt(s)
    case None => 0.0
    case Some(n) => n as real
  }

  /** `parseFloat(s) || 0` */
  function FloatOrZero(s: string): real {
    match ParseFloat(s)
    case None => 0.0
    case Some(x) => x
  }

  /** `c || 0` read as a number: a numeric cell keeps its value and everything
      else counts as 0 (see the README for the non-numeric case). */
  function NumOrZero(c: Cell): real {
    if c.Number? then c.value else 0.0
  }

  /** `c || 0` kept as a value. */
  function OrZero(c: Cell): (r: Cell)
    ensures Truthy(c) ==> r == c
    ensures !Truthy(c) ==> r == Number(0.0, "0")
  {
    if Truthy(c) then c else Number(0.0, "0")
  }

  /** `c || ""` kept as a value. */
  function OrEmpty(c: Cell): (r: Cell)
    ensures Truthy(c) ==> r == c
    ensures !Truthy(c) ==> r == Text("")
  {
    if Truthy(c) then c else Text("")
  }

  /** A JSON object or parsed CSV row: absent keys read as `undefined`. */
  type Row = map<string, Cell>

  function Get(row: Row, key: string): Cell {
    if key in row then row[key] else Undefined
  }
}
