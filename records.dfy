/**
 * The records that flow from the host's table into the chart: raw cells,
 * the opaque selection identity, extra-column descriptors and the task
 * record itself (src/components/GanttCHart.tsx:7-21).
 */
module Records {
  import opened Base

  /**
   * A raw table cell. A number carries the text `String(n)` gives for it;
   * a boolean is kept as a boolean because the chart renders it differently
   * in a template string and in an SVG text node.
   */
  datatype Cell =
    | Null
    | Undefined
    | Text(s: string)
    | Number(shown: string)
    | Boolean(b: bool)

  /**
   * `String(v)` for a present value and "" for null and undefined: what
   * `getString` returns, and what `${v ?? ""}` puts in a template string.
   */
  function CellString(c: Cell): (r: string)
    ensures c.Null? || c.Undefined? ==> r == ""
    ensures c.Boolean? ==> r == (if c.b then "true" else "false")
    ensures c.Text? ==> r == c.s
    ensures c.Number? ==> r == c.shown
  {
    match c
    case Null => ""
    case Undefined => ""
    case Boolean(b) => if b then "true" else "false"
    case Text(s) => s
    case Number(shown) => shown
  }

  /** The host's selection identity: opaque, only passed through. */
  datatype Identity = Identity(token: nat)

  /** One configured extra column: object key, header text, cell position, format. */
  datatype ExtraColumn = ExtraColumn(key: string, displayName: string, idx: int, format: Option<string>)

  /**
   * One task. Instants are milliseconds since the epoch; `extra` holds the
   * values of the extra columns, keyed by the column's query name.
   */
  datatype Task = Task(
    id: string,
    group: string,
    owner: string,
    name: string,
    start: Option<int>,
    end: Option<int>,
    progress: real,
    color: string,
    legendValue: string,
    labelText: string,  // the `label` field
    identity: Option<Identity>,
    extra: map<string, Cell>)

  /** A task with both a start and an end: it gets a bar and bounds the time domain. */
  predicate HasSpan(t: Task)
  {
    t.start.Some? && t.end.Some?
  }
}
