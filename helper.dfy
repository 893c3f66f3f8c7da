/** The date normaliser: bring a date-like value into one display format,
    leaving a value that is already in that format, or that no known format
    parses, untouched. Parsing and rendering belong to the moment library,
    which is not modelled: its three operations are passed in as a `Moment`. */
module DateHelper {
  import opened JsValues

  /** The source formats, tried in this order; the first that parses wins. */
  const DateFormats: seq<string> := [
    "YYYY-MM-DDTHH:mm:ss",
    "YYYY-MM-DDTHH:mm:ss.sssZ",
    "DD/MM/YYYY H:mm:ss",
    "YYYY-MM-DD",
    "MM/DD/YYYY",
    "DD-MM-YYYY",
    "DD/MM/YYYY"
  ]

  const DefaultFormat: string := "DD/MM/YYYY"

  /** moment's behaviour, as oracles:
      strict(v, f)  -- `moment(v, f, true).isValid()`
      parse(v, f)   -- `moment(v, f)`, None when it is not valid
      render(d, f)  -- `d.format(f)` */
  datatype Moment = Moment(
    strict: (Value, string) -> bool,
    parse: (Value, string) -> Option<Date>,
    render: (Date, string) -> string)

  /** `format ?? defaultFormat`. */
  function TargetFormat(format: Option<string>): (f: string)
    ensures format.None? ==> f == DefaultFormat
    ensures format.Some? ==> f == format.value
  {
    format.GetOr(DefaultFormat)
  }

  /** `isAlreadyFormatted`: the value parses strictly in the target format. */
  predicate IsAlreadyFormatted(m: Moment, value: Value, format: string) {
    m.strict(value, format)
  }

  /** The date given by the first of `formats` that parses `value`. */
  function FirstParse(m: Moment, value: Value, formats: seq<string>): (r: Option<Date>)
    ensures r.None? <==> forall i :: 0 <= i < |formats| ==> m.parse(value, formats[i]).None?
    ensures r.Some? ==>
      exists i :: 0 <= i < |formats| && m.parse(value, formats[i]) == r &&
        forall j :: 0 <= j < i ==> m.parse(value, formats[j]).None?
  {
    if formats == [] then None
    else
      var date := m.parse(value, formats[0]);
      if date.Some? then date
      else
        var rest := FirstParse(m, value, formats[1..]);
        assert forall i :: 1 <= i < |formats| ==> formats[i] == formats[1..][i - 1];
        rest
  }

  /** The result `formatDate(value, format)` returns, for a given target format. */
  function Normalize(m: Moment, value: Value, format: string): (r: Value)
    ensures r == value || r.Text?
  {
    if IsAlreadyFormatted(m, value, format) then value
    else match FirstParse(m, value, DateFormats)
      case Some(d) => Text(m.render(d, format))
      case None => value
  }

  /** `formatDate`: the strict guard, then the first-match loop with `break`,
      then `formattedDate ?? value`. */
  method FormatDate(m: Moment, value: Value, format: Option<string>) returns (r: Value)
    ensures r == Normalize(m, value, TargetFormat(format))
  {
    var target := TargetFormat(format);
    var formatted: Option<string> := None;
    if !IsAlreadyFormatted(m, value, target) {
      var i := 0;
      while i < |DateFormats|
        invariant 0 <= i <= |DateFormats|
        invariant formatted.None?
        invariant forall j :: 0 <= j < i ==> m.parse(value, DateFormats[j]).None?
      {
        var date := m.parse(value, DateFormats[i]);
        if date.Some? {
          formatted := Some(m.render(date.value, target));
          FirstMatchWins(m, value, DateFormats, i);
          break;
        }
        i := i + 1;
      }
    }
    r := if formatted.Some? then Text(formatted.value) else value;
  }

  /** A format that parses and is preceded only by formats that do not
      decides the search; the formats after it are not consulted. */
  lemma FirstMatchWins(m: Moment, value: Value, formats: seq<string>, i: nat)
    requires i < |formats| && m.parse(value, formats[i]).Some?
    requires forall j :: 0 <= j < i ==> m.parse(value, formats[j]).None?
    ensures FirstParse(m, value, formats) == m.parse(value, formats[i])
  {
  }

  /** The three outcomes of `formatDate`: a value already in the target
      format is returned as it is; otherwise the first source format that
      parses gives the date, rendered in the target format; when none
      parses, the value is returned as it is. */
  lemma NormalizeOutcomes(m: Moment, value: Value, format: string, i: nat)
    requires i <= |DateFormats|
    requires forall j :: 0 <= j < i ==> m.parse(value, DateFormats[j]).None?
    ensures IsAlreadyFormatted(m, value, format) ==> Normalize(m, value, format) == value
    ensures !IsAlreadyFormatted(m, value, format) && i < |DateFormats| && m.parse(value, DateFormats[i]).Some? ==>
      Normalize(m, value, format) == Text(m.render(m.parse(value, DateFormats[i]).value, format))
    ensures !IsAlreadyFormatted(m, value, format) && i == |DateFormats| ==>
      Normalize(m, value, format) == value
  {
  }

  /** Every rendering in `format` parses strictly in `format` again. */
  ghost predicate RendersStrictly(m: Moment, format: string) {
    forall d :: m.strict(Text(m.render(d, format)), format)
  }

  /** Normalising twice gives what normalising once gives: the guard stops
      an already normalised value from being parsed again. */
  lemma NormalizeIdempotent(m: Moment, value: Value, format: string)
    requires RendersStrictly(m, format)
    ensures Normalize(m, Normalize(m, value, format), format) == Normalize(m, value, format)
  {
  }
}
