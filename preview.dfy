/** The console preview both scripts print before writing the calendar.
    The printing itself is not modelled; what matters is that the preview
    reads every game's times with `parse_dt` (`datetime.strptime` with the
    format `%Y-%m-%dT%H:%M:%S`) and so can stop the run before any file is
    written.  Whether strptime accepts a string is a parameter, `parses`. */
module Preview {
  import opened Json

  const TimeFormat := "%Y-%m-%dT%H:%M:%S"

  /** `parse_dt(attrs[key])` */
  function ParseFailure(v: Scalar, key: string, parses: string -> bool): Option<Error> {
    match v
    case Missing => Some(KeyError(key))
    case Str(s) =>
      if parses(s) then None
      else Some(ValueError("time data '" + s + "' does not match format '" + TimeFormat + "'"))
    case Null => Some(TypeError("strptime() argument 1 must be str, not None"))
    case Int(_) => Some(TypeError("strptime() argument 1 must be str, not int"))
  }

  /** `attrs = ev["attributes"]`, then parsing the start and then the end. */
  function TimesFailure(ev: Record, parses: string -> bool): Option<Error> {
    match ev.attributes
    case NoAttrs => Some(KeyError("attributes"))
    case NullAttrs => Some(TypeError("'NoneType' object is not subscriptable"))
    case Attrs(a) =>
      var s := ParseFailure(a.start, "start", parses);
      if s.Some? then s else ParseFailure(a.end, "end", parses)
  }
}
