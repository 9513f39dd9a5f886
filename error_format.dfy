/** The error report the interpreter prints on stderr and the compiler
    returns, `{success: false, errors: [{message, line?, column?}]}`,
    and its rendering for people: one `message[:line[:column]]` per entry,
    entries separated by newlines. */
module ErrorFormat {
  import opened Base
  import opened Json

  /** One reported error.  `None` is an absent property; a property that
      is present but `null` is `Some(JNull)`. */
  datatype ErrorEntry = ErrorEntry(message: string, line: Option<Json>, column: Option<Json>)

  /** `p != null` in the source: loosely not null, so neither absent nor `null`. */
  predicate Shown(p: Option<Json>) {
    p.Some? && p.value != JNull
  }

  /** The `:line[:column]` suffix; the column only follows a line. */
  function Location(e: ErrorEntry): string {
    if Shown(e.line) then
      ":" + Render(e.line.value) + (if Shown(e.column) then ":" + Render(e.column.value) else "")
    else ""
  }

  function FormatEntry(e: ErrorEntry): string {
    e.message + Location(e)
  }

  function FormattedEntries(errors: seq<ErrorEntry>): (r: seq<string>)
    ensures |r| == |errors|
    ensures forall i :: 0 <= i < |errors| ==> r[i] == FormatEntry(errors[i])
  {
    seq(|errors|, i requires 0 <= i < |errors| => FormatEntry(errors[i]))
  }

  /** `formatErrorEntries`: the entries rendered and joined with newlines;
      no entries render as the empty string. */
  function FormatErrorEntries(errors: seq<ErrorEntry>): (r: string)
    ensures |errors| == 0 ==> r == ""
  {
    Join(FormattedEntries(errors), "\n")
  }

  // ---- reading a rendered entry back -------------------------------------

  /** A line or column that the round trip below can recover: absent,
      `null`, or a non-negative integer. */
  predicate Numeric(p: Option<Json>) {
    p.None? || p.value.JNull? || (p.value.JNumber? && p.value.n >= 0)
  }

  datatype Located = Located(message: string, line: Option<nat>, column: Option<nat>)

  predicate AllDigits(s: string) {
    |s| >= 1 && forall i :: 0 <= i < |s| ==> '0' <= s[i] <= '9'
  }

  /** Reads `message`, `message:line` or `message:line:column` back. */
  function ParseEntry(s: string): Option<Located> {
    var parts := Split(s, ':');
    if |parts| == 1 then Some(Located(parts[0], None, None))
    else if |parts| == 2 && AllDigits(parts[1]) then
      Some(Located(parts[0], Some(DigitsValue(parts[1])), None))
    else if |parts| == 3 && AllDigits(parts[1]) && AllDigits(parts[2]) then
      Some(Located(parts[0], Some(DigitsValue(parts[1])), Some(DigitsValue(parts[2]))))
    else None
  }

  /** What a rendered entry should carry: its message, its line when one is
      shown, and its column only when both line and column are shown. */
  function Expected(e: ErrorEntry): Located
    requires Numeric(e.line) && Numeric(e.column)
  {
    var line: Option<nat> := if Shown(e.line) then Some(e.line.value.n) else None;
    var column: Option<nat> := if Shown(e.line) && Shown(e.column) then Some(e.column.value.n) else None;
    Located(e.message, line, column)
  }

  lemma DigitsHoldNoColon(n: nat)
    ensures ':' !in NatToString(n) && '\n' !in NatToString(n) && AllDigits(NatToString(n))
  {
  }

  lemma LineRoundTrip(message: string, l: nat)
    requires ':' !in message
    ensures ParseEntry(message + ":" + NatToString(l)) == Some(Located(message, Some(l), None))
  {
    var ls := NatToString(l);
    DigitsHoldNoColon(l);
    NatToStringRoundTrip(l);
    assert message + ":" + ls == message + [':'] + ls;
    SplitAfterPiece(message, ':', ls);
    SplitNoSep(ls, ':');
  }

  lemma LineColumnRoundTrip(message: string, l: nat, c: nat)
    requires ':' !in message
    ensures ParseEntry(message + ":" + NatToString(l) + ":" + NatToString(c))
            == Some(Located(message, Some(l), Some(c)))
  {
    var ls, cs := NatToString(l), NatToString(c);
    DigitsHoldNoColon(l);
    DigitsHoldNoColon(c);
    NatToStringRoundTrip(l);
    NatToStringRoundTrip(c);
    assert message + ":" + ls + ":" + cs == message + [':'] + (ls + [':'] + cs);
    SplitAfterPiece(message, ':', ls + [':'] + cs);
    SplitAfterPiece(ls, ':', cs);
    SplitNoSep(cs, ':');
  }

  /** Rendering an entry with a colon-free message and numeric positions
      loses nothing: the message, the line and (only after a line) the
      column are read back from the text. */
  lemma FormatEntryRoundTrip(e: ErrorEntry)
    requires ':' !in e.message
    requires Numeric(e.line) && Numeric(e.column)
    ensures ParseEntry(FormatEntry(e)) == Some(Expected(e))
  {
    if !Shown(e.line) {
      assert FormatEntry(e) == e.message;
      SplitNoSep(e.message, ':');
    } else if Shown(e.column) {
      LocatedEntryRoundTrip(e);
    } else {
      LinedEntryRoundTrip(e);
    }
  }

  /** The round trip of an entry with a line and no column. */
  lemma LinedEntryRoundTrip(e: ErrorEntry)
    requires ':' !in e.message
    requires Numeric(e.line) && Numeric(e.column) && Shown(e.line) && !Shown(e.column)
    ensures ParseEntry(FormatEntry(e)) == Some(Expected(e))
  {
    LinedText(e);
    LineRoundTrip(e.message, e.line.value.n);
  }

  /** The text of an entry with a line and no column. */
  lemma LinedText(e: ErrorEntry)
    requires Numeric(e.line) && Shown(e.line) && !Shown(e.column)
    ensures FormatEntry(e) == e.message + ":" + NatToString(e.line.value.n)
  {
    assert Location(e) == ":" + NatToString(e.line.value.n) + "";
  }

  /** The round trip of an entry with a line and a column. */
  lemma LocatedEntryRoundTrip(e: ErrorEntry)
    requires ':' !in e.message
    requires Numeric(e.line) && Numeric(e.column) && Shown(e.line) && Shown(e.column)
    ensures ParseEntry(FormatEntry(e)) == Some(Expected(e))
  {
    var l: nat, c: nat := e.line.value.n, e.column.value.n;
    LocatedText(e);
    LineColumnRoundTrip(e.message, l, c);
  }

  /** The text of an entry with a line and a column. */
  lemma LocatedText(e: ErrorEntry)
    requires Numeric(e.line) && Numeric(e.column) && Shown(e.line) && Shown(e.column)
    ensures FormatEntry(e) == e.message + ":" + NatToString(e.line.value.n) + ":" + NatToString(e.column.value.n)
  {
    assert Location(e) == ":" + NatToString(e.line.value.n) + (":" + NatToString(e.column.value.n));
  }

  /** A newline-free message with numeric positions renders on one line. */
  lemma FormatEntryOneLine(e: ErrorEntry)
    requires '\n' !in e.message
    requires Numeric(e.line) && Numeric(e.column)
    ensures '\n' !in FormatEntry(e)
  {
    if Shown(e.line) {
      DigitsHoldNoColon(e.line.value.n);
      if Shown(e.column) {
        DigitsHoldNoColon(e.column.value.n);
      }
    }
  }

  /** For a non-empty list whose entries each render on one line, the
      report has exactly one line per entry, in input order. */
  lemma FormatErrorEntriesLines(errors: seq<ErrorEntry>)
    requires |errors| >= 1
    requires forall i :: 0 <= i < |errors| ==> '\n' !in FormatEntry(errors[i])
    ensures Split(FormatErrorEntries(errors), '\n') == FormattedEntries(errors)
    ensures |Split(FormatErrorEntries(errors), '\n')| == |errors|
  {
    SplitJoin(FormattedEntries(errors), '\n');
  }

  // ---- recognising the report in parsed JSON -------------------------------

  /** An array element the guard accepts: an object with a string `message`. */
  predicate IsEntryObject(x: Json) {
    x.JObject? && var m := Lookup(x.members, "message"); m.Some? && m.value.JString?
  }

  /** `isNospaceErrorResult`: a non-null object whose `success` is exactly
      `false` and whose `errors` is an array of entry objects.  An array
      value fails at `success`, which arrays do not have. */
  predicate IsNospaceErrorResult(v: Json) {
    match v
    case JObject(members) =>
      && Lookup(members, "success") == Some(JBool(false))
      && var errs := Lookup(members, "errors");
      && errs.Some? && errs.value.JArray?
      && forall i :: 0 <= i < |errs.value.items| ==> IsEntryObject(errs.value.items[i])
    case _ => false
  }

  function EntryOf(x: Json): ErrorEntry
    requires IsEntryObject(x)
  {
    ErrorEntry(Lookup(x.members, "message").value.s, Lookup(x.members, "line"), Lookup(x.members, "column"))
  }

  function EntriesOf(v: Json): (r: seq<ErrorEntry>)
    requires IsNospaceErrorResult(v)
  {
    var items := Lookup(v.members, "errors").value.items;
    seq(|items|, i requires 0 <= i < |items| => EntryOf(items[i]))
  }

  /** `tryFormatNospaceErrorJson`, with `JSON.parse` given as `parse`
      (`None` where it throws): the formatted report exactly when the text
      parses to an error result. */
  function TryFormatNospaceErrorJson(text: string, parse: string -> Option<Json>): (r: Option<string>)
    ensures r.Some? <==> parse(text).Some? && IsNospaceErrorResult(parse(text).value)
    ensures r.Some? ==> r.value == FormatErrorEntries(EntriesOf(parse(text).value))
  {
    match parse(text)
    case None => None
    case Some(v) => if IsNospaceErrorResult(v) then Some(FormatErrorEntries(EntriesOf(v))) else None
  }

  // ---- building the report --------------------------------------------------

  function EncodeEntry(e: ErrorEntry): Json {
    JObject([Member("message", JString(e.message))]
            + (if e.line.Some? then [Member("line", e.line.value)] else [])
            + (if e.column.Some? then [Member("column", e.column.value)] else []))
  }

  /** The report as the interpreter writes it. */
  function Encode(errors: seq<ErrorEntry>): Json {
    JObject([Member("success", JBool(false)),
             Member("errors", JArray(seq(|errors|, i requires 0 <= i < |errors| => EncodeEntry(errors[i]))))])
  }

  lemma EncodeEntryRoundTrip(e: ErrorEntry)
    ensures IsEntryObject(EncodeEntry(e)) && EntryOf(EncodeEntry(e)) == e
  {
    var ms := EncodeEntry(e).members;
    var m := Member("message", JString(e.message));
    assert "message" != "line" && "message" != "column" && "line" != "column";
    match (e.line, e.column)
    case (Some(l), Some(c)) =>
      assert ms == [m, Member("line", l), Member("column", c)];
      assert Lookup(ms, "line") == Some(l);
      assert Lookup(ms, "column") == Lookup(ms[1..], "column") == Lookup(ms[2..], "column") == Some(c);
    case (Some(l), None) =>
      assert ms == [m, Member("line", l)];
      assert Lookup(ms, "line") == Some(l);
      assert Lookup(ms, "column") == Lookup(ms[1..], "column") == Lookup(ms[2..], "column") == None;
    case (None, Some(c)) =>
      assert ms == [m, Member("column", c)];
      assert Lookup(ms, "line") == Lookup(ms[1..], "line") == Lookup(ms[2..], "line") == None;
      assert Lookup(ms, "column") == Some(c);
    case (None, None) =>
      assert ms == [m];
  }

  /** The guard accepts every report the interpreter writes, and reading
      the entries back gives the entries written. */
  lemma {:induction false} EncodeRoundTrip(errors: seq<ErrorEntry>)
    ensures IsNospaceErrorResult(Encode(errors))
    ensures EntriesOf(Encode(errors)) == errors
  {
    var v := Encode(errors);
    var items := seq(|errors|, i requires 0 <= i < |errors| => EncodeEntry(errors[i]));
    assert Lookup(v.members, "errors") == Some(JArray(items));
    forall i | 0 <= i < |items|
      ensures IsEntryObject(items[i]) && EntryOf(items[i]) == errors[i]
    {
      EncodeEntryRoundTrip(errors[i]);
    }
  }

  /** Text that parses to a report is replaced by the formatted report. */
  lemma TryFormatReport(text: string, parse: string -> Option<Json>, errors: seq<ErrorEntry>)
    requires parse(text) == Some(Encode(errors))
    ensures TryFormatNospaceErrorJson(text, parse) == Some(FormatErrorEntries(errors))
  {
    EncodeRoundTrip(errors);
  }
}
