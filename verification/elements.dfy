/** Log records (src/element.h). Times are not modelled. */
module Elements {

  /** spdlog levels: trace 0 .. critical 5, off 6. */
  type Level = n: nat | n <= 6

  const CRITICAL: Level := 5

  datatype Element = Element(level: Level, message: string)

  /** What parsing one frame as JSON yields: the fields of a log record, or an exception text. */
  datatype Decoded = Parsed(level: Level, message: string) | Failed(what: string)

  type Decoder = string -> Decoded

  /** should_log() of a sink with the given level. */
  function Reaches(threshold: Level): Element -> bool {
    (e: Element) => threshold <= e.level
  }

  function ElementOf(decode: Decoder, frame: string): Element {
    match decode(frame)
    case Parsed(level, message) => Element(level, message)
    case Failed(what) => Element(CRITICAL, "Scriptor Json Parse Error: " + what)
  }
}
