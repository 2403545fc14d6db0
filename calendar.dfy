/** The calendar text both `write_ics` functions produce: a VCALENDAR header,
    one VEVENT block of lines per game, and a footer.  Every `f.write` call
    ends its lines with "\n"; lines are neither folded nor escaped.  The file
    is opened in text mode, which writes each "\n" as `os.linesep`: a bare LF
    on POSIX, CRLF on Windows.  The text here is the POSIX file. */
module Calendar {
  import opened Json

  const Header: seq<string> := ["BEGIN:VCALENDAR", "VERSION:2.0", "PRODID:dash_scraper"]
  const Footer: seq<string> := ["END:VCALENDAR"]
  const TimeZone := "America/New_York"
  const UidDomain := "@unionpointsports"

  /** `s.replace(c, "")` */
  function Remove(s: string, c: char): (r: string)
    decreases |s|
  {
    if s == [] then []
    else Remove(s[..|s| - 1], c) + (if s[|s| - 1] == c then [] else [s[|s| - 1]])
  }

  /** `iso.replace("-", "").replace(":", "")`: the compact timestamp. */
  function Stamp(iso: string): string {
    Remove(Remove(iso, '-'), ':')
  }

  lemma {:induction false} RemoveDeletes(s: string, c: char, d: char)
    ensures c !in Remove(s, c)
    ensures d != c ==> (d in Remove(s, c) <==> d in s)
    decreases |s|
  {
    if s != [] {
      RemoveDeletes(s[..|s| - 1], c, d);
      assert s == s[..|s| - 1] + [s[|s| - 1]];
    }
  }

  lemma {:induction false} RemoveAppend(a: string, b: string, c: char)
    ensures Remove(a + b, c) == Remove(a, c) + Remove(b, c)
    decreases |b|
  {
    if b == [] {
      assert a + b == a;
    } else {
      RemoveAppend(a, b[..|b| - 1], c);
      assert (a + b)[..|a + b| - 1] == a + b[..|b| - 1];
      assert (a + b)[|a + b| - 1] == b[|b| - 1];
    }
  }

  /** A timestamp holds no '-' and no ':', and every other character of the
      source string survives. */
  lemma StampDeletesSeparators(iso: string, d: char)
    ensures '-' !in Stamp(iso) && ':' !in Stamp(iso)
    ensures d != '-' && d != ':' ==> (d in Stamp(iso) <==> d in iso)
  {
    RemoveDeletes(iso, '-', ':');
    RemoveDeletes(Remove(iso, '-'), ':', '-');
    RemoveDeletes(iso, '-', d);
    RemoveDeletes(Remove(iso, '-'), ':', d);
  }

  /** Stamping works piece by piece. */
  lemma StampAppend(a: string, b: string)
    ensures Stamp(a + b) == Stamp(a) + Stamp(b)
  {
    RemoveAppend(a, b, '-');
    RemoveAppend(Remove(a, '-'), Remove(b, '-'), ':');
  }

  /** No separator that a timestamp drops. */
  predicate Plain(s: string) {
    '-' !in s && ':' !in s
  }

  lemma {:induction false} RemoveAbsent(s: string, c: char)
    requires c !in s
    ensures Remove(s, c) == s
    decreases |s|
  {
    if s != [] {
      RemoveAbsent(s[..|s| - 1], c);
      assert s == s[..|s| - 1] + [s[|s| - 1]];
    }
  }

  /** A string without separators is its own timestamp. */
  lemma StampOfPlain(s: string)
    requires Plain(s)
    ensures Stamp(s) == s
  {
    RemoveAbsent(s, '-');
    RemoveAbsent(s, ':');
  }

  lemma RemoveSingle(c: char, d: char)
    ensures Remove([c], d) == if c == d then [] else [c]
  {
    assert [c][..0] == [];
  }

  lemma StampOfSeparator(c: char)
    requires c == '-' || c == ':'
    ensures Stamp([c]) == []
  {
    RemoveSingle(c, '-');
    RemoveSingle(c, ':');
  }

  /** Removing `c` around a field that does not contain it. */
  lemma RemoveSeparated(p: string, sep: char, q: string, c: char)
    requires c !in q
    ensures Remove(p + [sep] + q, c) == Remove(p, c) + (if sep == c then [] else [sep]) + q
  {
    RemoveAppend(p + [sep], q, c);
    RemoveAppend(p, [sep], c);
    RemoveSingle(sep, c);
    RemoveAbsent(q, c);
  }

  /** A separator followed by a plain field: the separator goes, the field stays. */
  lemma StampOfSeparated(p: string, sep: char, q: string)
    requires Plain(q) && (sep == '-' || sep == ':')
    ensures Stamp(p + [sep] + q) == Stamp(p) + q
  {
    RemoveSeparated(p, sep, q, '-');
    var r := Remove(p, '-');
    if sep == '-' {
      assert Remove(p + [sep] + q, '-') == r + q;
      RemoveAppend(r, q, ':');
      RemoveAbsent(q, ':');
    } else {
      assert Remove(p + [sep] + q, '-') == r + [sep] + q;
      RemoveSeparated(r, sep, q, ':');
    }
  }

  /** The timestamp of `YYYY-MM-DDTHH:MM:SS` is `YYYYMMDDTHHMMSS`. */
  lemma StampOfIsoDateTime(y: string, mo: string, d: string, h: string, mi: string, s: string)
    requires Plain(y) && Plain(mo) && Plain(d) && Plain(h) && Plain(mi) && Plain(s)
    ensures Stamp(y + "-" + mo + "-" + d + "T" + h + ":" + mi + ":" + s)
            == y + mo + d + "T" + h + mi + s
  {
    var date := y + "-" + mo + "-" + d;
    var hour := date + "T" + h;
    calc {
      Stamp(y + "-" + mo + "-" + d + "T" + h + ":" + mi + ":" + s);
      { StampOfSeparated(hour + ":" + mi, ':', s); }
      Stamp(hour + ":" + mi) + s;
      { StampOfSeparated(hour, ':', mi); }
      Stamp(hour) + mi + s;
      { StampAppend(date + "T", h); StampAppend(date, "T"); StampOfPlain(h); StampOfPlain("T"); }
      Stamp(date) + "T" + h + mi + s;
      { StampOfSeparated(y + "-" + mo, '-', d); StampOfSeparated(y, '-', mo); StampOfPlain(y); }
      y + mo + d + "T" + h + mi + s;
    }
  }

  /** The blocks written one after another. */
  function Concat(blocks: seq<seq<string>>): seq<string>
    decreases |blocks|
  {
    if blocks == [] then [] else Concat(blocks[..|blocks| - 1]) + blocks[|blocks| - 1]
  }

  lemma {:induction false} ConcatLength(blocks: seq<seq<string>>, w: nat)
    requires forall k :: 0 <= k < |blocks| ==> |blocks[k]| == w
    ensures |Concat(blocks)| == w * |blocks|
    decreases |blocks|
  {
    if blocks != [] {
      ConcatLength(blocks[..|blocks| - 1], w);
      assert w * (|blocks| - 1) + w == w * |blocks|;
    }
  }

  /** Line `m` of block `k` follows the lines of the blocks before it. */
  lemma {:induction false} ConcatLineAt(blocks: seq<seq<string>>, k: nat, m: nat)
    requires k < |blocks| && m < |blocks[k]|
    ensures |Concat(blocks[..k])| + m < |Concat(blocks)|
    ensures Concat(blocks)[|Concat(blocks[..k])| + m] == blocks[k][m]
    decreases |blocks|
  {
    var n := |blocks| - 1;
    var front := blocks[..n];
    if k < n {
      ConcatLineAt(front, k, m);
      assert front[..k] == blocks[..k];
    } else {
      assert blocks[..k] == front;
    }
  }

  /** With blocks of `w` lines each, line `m` of block `k` is line
      `w*k + m` of the concatenation. */
  lemma ConcatLayout(blocks: seq<seq<string>>, w: nat, k: nat, m: nat)
    requires forall j :: 0 <= j < |blocks| ==> |blocks[j]| == w
    requires k < |blocks| && m < w
    ensures |Concat(blocks)| == w * |blocks|
    ensures w * k + m < |Concat(blocks)| && Concat(blocks)[w * k + m] == blocks[k][m]
  {
    ConcatLength(blocks, w);
    ConcatLineAt(blocks, k, m);
    var front := blocks[..k];
    assert |front| == k;
    assert forall j :: 0 <= j < |front| ==> front[j] == blocks[j];
    ConcatLength(front, w);
  }

  /** How many lines equal `l`. */
  function Count(lines: seq<string>, l: string): nat
    decreases |lines|
  {
    if lines == [] then 0
    else Count(lines[..|lines| - 1], l) + (if lines[|lines| - 1] == l then 1 else 0)
  }

  lemma {:induction false} CountAppend(a: seq<string>, b: seq<string>, l: string)
    ensures Count(a + b, l) == Count(a, l) + Count(b, l)
    decreases |b|
  {
    if b == [] {
      assert a + b == a;
    } else {
      CountAppend(a, b[..|b| - 1], l);
      assert (a + b)[..|a + b| - 1] == a + b[..|b| - 1];
      assert (a + b)[|a + b| - 1] == b[|b| - 1];
    }
  }

  /** When every block holds `l` exactly once, the concatenation holds it
      once per block. */
  lemma {:induction false} CountConcat(blocks: seq<seq<string>>, l: string)
    requires forall k :: 0 <= k < |blocks| ==> Count(blocks[k], l) == 1
    ensures Count(Concat(blocks), l) == |blocks|
    decreases |blocks|
  {
    if blocks != [] {
      CountConcat(blocks[..|blocks| - 1], l);
      CountAppend(Concat(blocks[..|blocks| - 1]), blocks[|blocks| - 1], l);
    }
  }

  /** The text `write_ics` writes: every line followed by "\n".  It is the
      file's contents where `os.linesep` is "\n" (POSIX). */
  function Text(lines: seq<string>): string
    decreases |lines|
  {
    if lines == [] then "" else Text(lines[..|lines| - 1]) + lines[|lines| - 1] + "\n"
  }

  function CharCount(s: string, c: char): nat
    decreases |s|
  {
    if s == [] then 0 else CharCount(s[..|s| - 1], c) + (if s[|s| - 1] == c then 1 else 0)
  }

  lemma {:induction false} CharCountAppend(a: string, b: string, c: char)
    ensures CharCount(a + b, c) == CharCount(a, c) + CharCount(b, c)
    decreases |b|
  {
    if b == [] {
      assert a + b == a;
    } else {
      CharCountAppend(a, b[..|b| - 1], c);
      assert (a + b)[..|a + b| - 1] == a + b[..|b| - 1];
      assert (a + b)[|a + b| - 1] == b[|b| - 1];
    }
  }

  lemma {:induction false} CharCountAbsent(s: string, c: char)
    requires c !in s
    ensures CharCount(s, c) == 0
    decreases |s|
  {
    if s != [] {
      CharCountAbsent(s[..|s| - 1], c);
    }
  }

  /** The text has one LF per line and no CR at all (LF line endings, not the
      CRLF of RFC 5545 section 3.1), as long as no line carries a newline of
      its own. */
  lemma {:induction false} TextLineEndings(lines: seq<string>)
    requires forall k :: 0 <= k < |lines| ==> '\n' !in lines[k] && '\r' !in lines[k]
    ensures CharCount(Text(lines), '\n') == |lines|
    ensures '\r' !in Text(lines)
    decreases |lines|
  {
    if lines != [] {
      var front := lines[..|lines| - 1];
      var last := lines[|lines| - 1];
      TextLineEndings(front);
      CharCountAbsent(last, '\n');
      CharCountAppend(Text(front), last, '\n');
      CharCountAppend(Text(front) + last, "\n", '\n');
    }
  }

  /** What `write_ics` leaves in the file: the lines written, and the
      exception that stopped the loop, if any.  The file is written as the
      loop goes, so a failure keeps the blocks already written and never
      reaches the footer. */
  datatype Written = Written(lines: seq<string>, error: Option<Error>)

  /** The loop over the games, given what building each game's block yields:
      its lines, or the exception raised before anything of it is written. */
  function Body(outcomes: seq<Result<seq<string>>>): Written
    decreases |outcomes|
  {
    if outcomes == [] then Written([], None)
    else
      var w := Body(outcomes[..|outcomes| - 1]);
      var o := outcomes[|outcomes| - 1];
      if w.error.Some? then w
      else if o.Err? then Written(w.lines, Some(o.error))
      else Written(w.lines + o.value, None)
  }

  /** Header, the loop, and the footer once the loop has finished. */
  function Ics(outcomes: seq<Result<seq<string>>>): Written {
    var w := Body(outcomes);
    if w.error.None? then Written(Header + w.lines + Footer, None)
    else Written(Header + w.lines, w.error)
  }

  predicate AllOk(outcomes: seq<Result<seq<string>>>) {
    forall k :: 0 <= k < |outcomes| ==> outcomes[k].Ok?
  }

  function Values(outcomes: seq<Result<seq<string>>>): seq<seq<string>>
    requires AllOk(outcomes)
  {
    seq(|outcomes|, k requires 0 <= k < |outcomes| && AllOk(outcomes) => outcomes[k].value)
  }

  lemma {:induction false} BodyComplete(outcomes: seq<Result<seq<string>>>)
    ensures Body(outcomes).error.None? <==> AllOk(outcomes)
    ensures AllOk(outcomes) ==> Body(outcomes).lines == Concat(Values(outcomes))
    decreases |outcomes|
  {
    if outcomes != [] {
      var front := outcomes[..|outcomes| - 1];
      BodyComplete(front);
      if AllOk(outcomes) {
        assert Values(outcomes)[..|outcomes| - 1] == Values(front);
      }
    }
  }

  /** The calendar is complete, header, one block per game in order, and
      footer, exactly when every game's block could be built. */
  lemma IcsComplete(outcomes: seq<Result<seq<string>>>)
    ensures Ics(outcomes).error.None? <==> AllOk(outcomes)
    ensures AllOk(outcomes) ==> Ics(outcomes).lines == Header + Concat(Values(outcomes)) + Footer
  {
    BodyComplete(outcomes);
  }

  lemma {:induction false} BodyStops(outcomes: seq<Result<seq<string>>>, k: nat)
    requires k < |outcomes| && outcomes[k].Err? && AllOk(outcomes[..k])
    ensures Body(outcomes) == Written(Concat(Values(outcomes[..k])), Some(outcomes[k].error))
    decreases |outcomes|
  {
    var n := |outcomes| - 1;
    var front := outcomes[..n];
    if k < n {
      assert front[..k] == outcomes[..k];
      BodyStops(front, k);
    } else {
      assert front == outcomes[..k];
      BodyComplete(front);
    }
  }

  /** When the game at position `k` is the first whose block fails, the file
      holds the header and the blocks of the games before it, no footer, and
      the run ends with that game's exception. */
  lemma IcsStopsAtFirstFailure(outcomes: seq<Result<seq<string>>>, k: nat)
    requires k < |outcomes| && outcomes[k].Err? && AllOk(outcomes[..k])
    ensures Ics(outcomes) == Written(Header + Concat(Values(outcomes[..k])), Some(outcomes[k].error))
  {
    BodyStops(outcomes, k);
  }

  /** With blocks of `w` lines, a complete calendar has `4 + w * n` lines and
      line `m` of game `k`'s block sits at line `3 + w * k + m`. */
  lemma IcsLayout(outcomes: seq<Result<seq<string>>>, w: nat, k: nat, m: nat)
    requires AllOk(outcomes)
    requires forall j :: 0 <= j < |outcomes| ==> |outcomes[j].value| == w
    requires k < |outcomes| && m < w
    ensures |Ics(outcomes).lines| == 4 + w * |outcomes|
    ensures 3 + w * k + m < |Ics(outcomes).lines|
    ensures Ics(outcomes).lines[3 + w * k + m] == outcomes[k].value[m]
  {
    IcsComplete(outcomes);
    ConcatLayout(Values(outcomes), w, k, m);
  }

  /** A line that occurs once in every block and not in the header or footer
      occurs once per game in a complete calendar. */
  lemma IcsCount(outcomes: seq<Result<seq<string>>>, l: string)
    requires AllOk(outcomes)
    requires forall j :: 0 <= j < |outcomes| ==> Count(outcomes[j].value, l) == 1
    requires l !in Header && l !in Footer
    ensures Count(Ics(outcomes).lines, l) == |outcomes|
  {
    IcsComplete(outcomes);
    var blocks := Values(outcomes);
    CountConcat(blocks, l);
    CountAbsent(Header, l);
    CountAbsent(Footer, l);
    CountAppend(Header, Concat(blocks), l);
    CountAppend(Header + Concat(blocks), Footer, l);
  }

  lemma {:induction false} CountAbsent(lines: seq<string>, l: string)
    requires l !in lines
    ensures Count(lines, l) == 0
    decreases |lines|
  {
    if lines != [] {
      CountAbsent(lines[..|lines| - 1], l);
    }
  }

  /** What building each game's block yields, game by game. */
  function Outcomes(events: seq<Record>, block: Record -> Result<seq<string>>): seq<Result<seq<string>>> {
    seq(|events|, i requires 0 <= i < |events| => block(events[i]))
  }

  /** The body of either `write_ics`: the header, then for each game its
      block (or the exception that ends the run), then the footer. */
  method WriteEvents(events: seq<Record>, block: Record -> Result<seq<string>>)
    returns (lines: seq<string>, error: Option<Error>)
    ensures Written(lines, error) == Ics(Outcomes(events, block))
  {
    ghost var outcomes := Outcomes(events, block);
    lines := Header;
    for i := 0 to |events|
      invariant Body(outcomes[..i]).error.None?
      invariant lines == Header + Body(outcomes[..i]).lines
    {
      var b := block(events[i]);
      assert outcomes[..i + 1][..i] == outcomes[..i];
      assert outcomes[..i + 1][i] == b;
      if b.Err? {
        BodyKeepsFailure(outcomes, i + 1);
        return lines, Some(b.error);
      }
      lines := lines + b.value;
    }
    assert outcomes[..|events|] == outcomes;
    lines := lines + Footer;
    error := None;
  }

  /** Once a block has failed, later games change nothing. */
  lemma {:induction false} BodyKeepsFailure(outcomes: seq<Result<seq<string>>>, k: nat)
    requires k <= |outcomes| && Body(outcomes[..k]).error.Some?
    ensures Body(outcomes) == Body(outcomes[..k])
    decreases |outcomes|
  {
    if k < |outcomes| {
      var front := outcomes[..|outcomes| - 1];
      assert front[..k] == outcomes[..k];
      BodyKeepsFailure(front, k);
    } else {
      assert outcomes[..k] == outcomes;
    }
  }

  /** The exception `attrs.replace` raises on a start or end that is not a
      string. */
  function ReplaceFailure(v: Scalar): Error {
    AttributeError("'" + TypeName(v) + "' object has no attribute 'replace'")
  }

  /** The first statements of each iteration of either writer:
      `attrs = ev["attributes"]`, `attrs["start"]`, `attrs["end"]`, and the
      compact timestamps of both. */
  function EventTimes(ev: Record): Result<(string, string)> {
    match ev.attributes
    case NoAttrs => Err(KeyError("attributes"))
    case NullAttrs => Err(TypeError("'NoneType' object is not subscriptable"))
    case Attrs(a) =>
      if a.start.Missing? then Err(KeyError("start"))
      else if a.end.Missing? then Err(KeyError("end"))
      else if !a.start.Str? then Err(ReplaceFailure(a.start))
      else if !a.end.Str? then Err(ReplaceFailure(a.end))
      else Ok((Stamp(a.start.s), Stamp(a.end.s)))
  }

  /** The lines one VEVENT block is written as; `extra` holds the lines a
      writer adds after SUMMARY. */
  function EventLines(uid: string, start: string, end: string, summary: string, extra: seq<string>): seq<string> {
    ["BEGIN:VEVENT",
     "UID:" + uid + UidDomain,
     "DTSTAMP:" + start + "Z",
     "DTSTART;TZID=" + TimeZone + ":" + start,
     "DTEND;TZID=" + TimeZone + ":" + end,
     "SUMMARY:" + summary]
    + extra + ["END:VEVENT"]
  }

  /** Where each field of a block sits. */
  lemma EventLinesFields(uid: string, start: string, end: string, summary: string, extra: seq<string>)
    ensures var l := EventLines(uid, start, end, summary, extra);
            |l| == 7 + |extra| &&
            l[0] == "BEGIN:VEVENT" &&
            l[1] == "UID:" + uid + UidDomain &&
            l[2] == "DTSTAMP:" + start + "Z" &&
            l[3] == "DTSTART;TZID=" + TimeZone + ":" + start &&
            l[4] == "DTEND;TZID=" + TimeZone + ":" + end &&
            l[5] == "SUMMARY:" + summary &&
            (forall k :: 0 <= k < |extra| ==> l[6 + k] == extra[k]) &&
            l[6 + |extra|] == "END:VEVENT"
  {
  }

  /** A block opens and closes exactly once, whatever its fields hold, as
      long as the added lines are property lines. */
  lemma EventLinesDelimited(uid: string, start: string, end: string, summary: string, extra: seq<string>)
    requires "BEGIN:VEVENT" !in extra && "END:VEVENT" !in extra
    ensures Count(EventLines(uid, start, end, summary, extra), "BEGIN:VEVENT") == 1
    ensures Count(EventLines(uid, start, end, summary, extra), "END:VEVENT") == 1
    ensures |EventLines(uid, start, end, summary, extra)| == 7 + |extra|
  {
    var fixed := ["BEGIN:VEVENT",
                  "UID:" + uid + UidDomain,
                  "DTSTAMP:" + start + "Z",
                  "DTSTART;TZID=" + TimeZone + ":" + start,
                  "DTEND;TZID=" + TimeZone + ":" + end,
                  "SUMMARY:" + summary];
    forall k | 1 <= k < |fixed|
      ensures fixed[k] != "BEGIN:VEVENT" && fixed[k] != "END:VEVENT"
    {
      assert fixed[k][0] != 'B' && fixed[k][0] != 'E';
    }
    assert "BEGIN:VEVENT" != "END:VEVENT";
    CountFixed(fixed, "BEGIN:VEVENT");
    CountFixed(fixed, "END:VEVENT");
    CountAbsent(extra, "BEGIN:VEVENT");
    CountAbsent(extra, "END:VEVENT");
    CountAppend(fixed, extra, "BEGIN:VEVENT");
    CountAppend(fixed, extra, "END:VEVENT");
    CountAppend(fixed + extra, ["END:VEVENT"], "BEGIN:VEVENT");
    CountAppend(fixed + extra, ["END:VEVENT"], "END:VEVENT");
    assert ["END:VEVENT"][..0] == [];
  }

  lemma {:induction false} CountFixed(fixed: seq<string>, l: string)
    requires |fixed| >= 1
    requires forall k :: 1 <= k < |fixed| ==> fixed[k] != l
    ensures Count(fixed, l) == if fixed[0] == l then 1 else 0
    decreases |fixed|
  {
    if |fixed| == 1 {
      assert fixed[..0] == [];
    } else {
      CountFixed(fixed[..|fixed| - 1], l);
    }
  }
}
