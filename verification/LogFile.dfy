/** The diagnostics log: entries in memory, and a current and a previous log file that rotate at a
    byte limit. Every file operation may fail. */
module LogFile {
  import opened Wrappers
  import opened Redaction

  type Byte = b: nat | b < 256
  type Text = seq<Byte>

  const ENTRY_LIMIT: nat := 1200
  const LOG_LIMIT: nat := 5 * 1024 * 1024
  const NEWLINE: Byte := 10
  const LINE_LIMIT: nat := 1010

  // ---- Entries and their lines ----

  datatype Entry = Entry(atMs: nat, area: string, event: string, detail: string)

  predicate IsControl(c: char) {
    (c as int) < 0x20 || 0x7F <= c as int < 0xA0
  }

  // The first `limit` characters that are not control characters.
  function Clean(value: string, limit: nat): (r: string)
    ensures |r| <= limit && forall i :: 0 <= i < |r| ==> !IsControl(r[i])
    decreases |value|
  {
    if value == "" || limit == 0 then ""
    else if IsControl(value[0]) then Clean(value[1..], limit)
    else [value[0]] + Clean(value[1..], limit - 1)
  }

  function Digits(n: nat): (r: string)
    ensures r != "" && forall i :: 0 <= i < |r| ==> '0' <= r[i] <= '9'
  {
    (if n < 10 then "" else Digits(n / 10)) + [(n % 10 + 48) as char]
  }

  // The text of an entry up to, and not including, its newline.
  function Body(e: Entry): string {
    Digits(e.atMs) + (" [" + (e.area + ("] " + (e.event + (": " + e.detail)))))
  }

  function Utf8Char(c: char): (r: Text)
    ensures |r| == Width(c)
    ensures forall i :: 0 <= i < |r| ==> (r[i] == NEWLINE <==> c == '\n')
  {
    var code := c as int;
    if code < 0x80 then [code]
    else if code < 0x800 then [0xC0 + code / 0x40, 0x80 + code % 0x40]
    else if code < 0x1_0000 then [0xE0 + code / 0x1000, 0x80 + code / 0x40 % 0x40, 0x80 + code % 0x40]
    else [0xF0 + code / 0x4_0000, 0x80 + code / 0x1000 % 0x40, 0x80 + code / 0x40 % 0x40, 0x80 + code % 0x40]
  }

  function Utf8(s: string): (r: Text)
    ensures |r| == Bytes(s)
    ensures '\n' !in s ==> NEWLINE !in r
  {
    if s == "" then [] else Utf8Char(s[0]) + Utf8(s[1..])
  }

  // `format_entry`, as the bytes appended to the file.
  function Line(e: Entry): Text {
    Utf8(Body(e)) + [NEWLINE]
  }

  function MakeEntry(atMs: nat, area: string, event: string, detail: string): Entry {
    Entry(atMs, Clean(area, 48), Clean(event, 72), Redacted(detail, 480))
  }

  predicate IsLine(line: Text) {
    && 0 < |line| <= LINE_LIMIT
    && line[|line| - 1] == NEWLINE
    && NEWLINE !in line[..|line| - 1]
  }

  function Pow10(k: nat): nat {
    if k == 0 then 1 else 10 * Pow10(k - 1)
  }

  lemma {:induction false} DigitsAreFew(n: nat, k: nat)
    requires k > 0 && n < Pow10(k)
    ensures |Digits(n)| <= k
    decreases k
  {
    if n >= 10 {
      DigitsAreFew(n / 10, k - 1);
    }
  }

  lemma {:induction false} FewCharactersFewBytes(s: string)
    ensures Bytes(s) <= 4 * |s|
  {
    if s != "" {
      FewCharactersFewBytes(s[1..]);
    }
  }

  lemma {:induction false} DigitsAreNarrow(s: string)
    requires forall i :: 0 <= i < |s| ==> '0' <= s[i] <= '9'
    ensures Bytes(s) == |s|
  {
    if s != "" {
      DigitsAreNarrow(s[1..]);
    }
  }

  lemma PunctuationIsNarrow()
    ensures Bytes(" [") == 2 && Bytes("] ") == 2 && Bytes(": ") == 2
  {
    assert Bytes(" [") == 2 by { assert " ["[1..] == "["; assert "["[1..] == ""; }
    assert Bytes("] ") == 2 by { assert "] "[1..] == " "; assert " "[1..] == ""; }
    assert Bytes(": ") == 2 by { assert ": "[1..] == " "; assert " "[1..] == ""; }
  }

  lemma BodySize(e: Entry)
    ensures Bytes(Body(e)) == Bytes(Digits(e.atMs)) + Bytes(e.area) + Bytes(e.event) + Bytes(e.detail) + 6
  {
    hide Bytes, Digits;
    PunctuationIsNarrow();
    var last := ": " + e.detail;
    BytesOfConcat(": ", e.detail);
    BytesOfConcat(e.event, last);
    BytesOfConcat("] ", e.event + last);
    BytesOfConcat(e.area, "] " + (e.event + last));
    BytesOfConcat(" [", e.area + ("] " + (e.event + last)));
    BytesOfConcat(Digits(e.atMs), " [" + (e.area + ("] " + (e.event + last))));
  }

  lemma TimeIsShort(atMs: nat)
    requires atMs < 0x1_0000_0000_0000_0000_0000_0000_0000_0000
    ensures Bytes(Digits(atMs)) <= 39
  {
    assert Pow10(13) == 10_000_000_000_000;
    assert Pow10(26) == 100_000_000_000_000_000_000_000_000;
    assert Pow10(39) == 1_000_000_000_000_000_000_000_000_000_000_000_000_000;
    DigitsAreFew(atMs, 39);
    DigitsAreNarrow(Digits(atMs));
  }

  /** Every recorded entry becomes exactly one line: its only newline is its last byte, and whatever the
      caller passed it is at most LINE_LIMIT bytes long; and its detail holds no credential word and no
      `@`. */
  lemma EntryIsOneLine(atMs: nat, area: string, event: string, detail: string)
    requires atMs < 0x1_0000_0000_0000_0000_0000_0000_0000_0000
    ensures IsLine(Line(MakeEntry(atMs, area, event, detail)))
    ensures
      var e := MakeEntry(atMs, area, event, detail);
      && e.atMs == atMs && e.area == Clean(area, 48) && e.event == Clean(event, 72)
      && e.detail == Redacted(detail, 480) && NamesNothing(e.detail)
  {
    hide Bytes, Clean, Redacted, Digits, Utf8, NamesNothing, Leaks;
    NothingSensitiveRemains(detail, 480);
    var e := MakeEntry(atMs, area, event, detail);
    TimeIsShort(atMs);
    FewCharactersFewBytes(e.area);
    FewCharactersFewBytes(e.event);
    RedactStaysNearLimit(detail, 480);
    BodySize(e);
    RedactedIsOneLine(detail, 480);
    assert '\n' !in e.detail && '\n' !in e.area && '\n' !in e.event;
    assert '\n' !in Body(e);
    assert Line(e)[..|Line(e)| - 1] == Utf8(Body(e));
  }

  // ---- Reading an entry back ----

  // The number written in decimal digits.
  function Number(s: string): int {
    if s == "" then 0 else 10 * Number(s[..|s| - 1]) + (s[|s| - 1] as int - 48)
  }

  // What stands before and after the first `c`.
  function SplitAt(s: string, c: char): Option<(string, string)> {
    if s == "" then None
    else if s[0] == c then Some(("", s[1..]))
    else
      var rest := SplitAt(s[1..], c);
      if rest.None? then None else Some(([s[0]] + rest.value.0, rest.value.1))
  }

  // The entry of a line of the form `time [area] event: detail`.
  function ReadEntry(line: string): Option<Entry> {
    var time := SplitAt(line, ' ');
    if time.None? || !('[' in time.value.1[..Min(1, |time.value.1|)]) then None
    else
      var area := SplitAt(time.value.1[1..], ']');
      if area.None? || !(' ' in area.value.1[..Min(1, |area.value.1|)]) then None
      else
        var event := SplitAt(area.value.1[1..], ':');
        if event.None? || !(' ' in event.value.1[..Min(1, |event.value.1|)]) || Number(time.value.0) < 0 then None
        else Some(Entry(Number(time.value.0), area.value.0, event.value.0, event.value.1[1..]))
  }

  lemma {:induction false} DigitsReadBack(n: nat)
    ensures Number(Digits(n)) == n
  {
    var init := if n < 10 then "" else Digits(n / 10);
    assert Digits(n)[..|Digits(n)| - 1] == init;
    if n >= 10 {
      DigitsReadBack(n / 10);
    }
  }

  lemma {:induction false} SplitAtFirst(a: string, c: char, b: string)
    requires c !in a
    ensures SplitAt(a + ([c] + b), c) == Some((a, b))
  {
    var s := a + ([c] + b);
    if a == "" {
      assert s == [c] + b && s[1..] == b;
    } else {
      assert s[1..] == a[1..] + ([c] + b);
      SplitAtFirst(a[1..], c, b);
      assert a == [a[0]] + a[1..];
    }
  }

  /** The text of an entry reads back as that entry, unless its area holds a `]` or its event a `:`. */
  lemma BodyReadsBack(e: Entry)
    requires ']' !in e.area && ':' !in e.event
    ensures ReadEntry(Body(e)) == Some(e)
  {
    hide SplitAt, Digits, Number;
    var detail := " " + e.detail;
    var event := e.event + (": " + e.detail);
    var area := e.area + ("] " + event);
    assert ": " + e.detail == [':'] + detail && detail[1..] == e.detail;
    SplitAtFirst(e.event, ':', detail);
    assert "] " + event == [']'] + (" " + event) && (" " + event)[1..] == event;
    SplitAtFirst(e.area, ']', " " + event);
    assert " [" + area == [' '] + ("[" + area) && ("[" + area)[1..] == area;
    SplitAtFirst(Digits(e.atMs), ' ', "[" + area);
    DigitsReadBack(e.atMs);
    assert ("[" + area)[..1] == "[" && (" " + event)[..1] == " " && detail[..1] == " ";
    assert '[' in "[" && ' ' in " ";
  }

  lemma CharsDiffer(c: char, d: char, x: Text, y: Text)
    requires Utf8Char(c) + x == Utf8Char(d) + y
    ensures c == d && x == y
  {
    var a, b := Utf8Char(c) + x, Utf8Char(d) + y;
    assert a[0] == Utf8Char(c)[0] && b[0] == Utf8Char(d)[0];
    assert |Utf8Char(c)| == |Utf8Char(d)|;
    assert a[|Utf8Char(c)|..] == x && b[|Utf8Char(d)|..] == y;
    assert a[..|Utf8Char(c)|] == Utf8Char(c) && b[..|Utf8Char(d)|] == Utf8Char(d);
    SameChars(c, d);
  }

  // The code point of one encoded character.
  function Decoded(r: Text): int {
    var b := seq(|r|, i requires 0 <= i < |r| => r[i] as int);
    if |r| == 1 then b[0]
    else if |r| == 2 then (b[0] - 0xC0) * 0x40 + (b[1] - 0x80)
    else if |r| == 3 then ((b[0] - 0xE0) * 0x40 + (b[1] - 0x80)) * 0x40 + (b[2] - 0x80)
    else if |r| == 4 then (((b[0] - 0xF0) * 0x40 + (b[1] - 0x80)) * 0x40 + (b[2] - 0x80)) * 0x40 + (b[3] - 0x80)
    else -1
  }

  lemma Sixths(code: nat)
    ensures code / 0x40 / 0x40 == code / 0x1000 && code / 0x1000 / 0x40 == code / 0x4_0000
  {
  }

  lemma CharDecodes(c: char)
    ensures Decoded(Utf8Char(c)) == c as int
  {
    Sixths(c as int);
  }

  lemma SameChars(c: char, d: char)
    requires Utf8Char(c) == Utf8Char(d)
    ensures c == d
  {
    CharDecodes(c);
    CharDecodes(d);
    hide Utf8Char, Decoded;
  }

  /** Different texts have different encodings. */
  lemma {:induction false} Utf8IsInjective(s: string, t: string)
    requires Utf8(s) == Utf8(t)
    ensures s == t
  {
    if s != "" && t != "" {
      CharsDiffer(s[0], t[0], Utf8(s[1..]), Utf8(t[1..]));
      Utf8IsInjective(s[1..], t[1..]);
      assert s == [s[0]] + s[1..] && t == [t[0]] + t[1..];
    }
  }

  /** Nothing of an entry is lost in its line: entries with the same line are the same, unless an area holds
      a `]` or an event a `:`. */
  lemma LinesDetermineEntries(a: Entry, b: Entry)
    requires Line(a) == Line(b) && ']' !in a.area + b.area && ':' !in a.event + b.event
    ensures a == b
  {
    hide Utf8, Body, ReadEntry;
    assert Utf8(Body(a)) == Line(a)[..|Line(a)| - 1];
    assert Utf8(Body(b)) == Line(b)[..|Line(b)| - 1];
    Utf8IsInjective(Body(a), Body(b));
    assert ']' !in a.area && ']' !in b.area && ':' !in a.event && ':' !in b.event;
    BodyReadsBack(a);
    BodyReadsBack(b);
  }

  // `r` holds the characters at the places `at`, ascending from `n` on, and no control character.
  ghost predicate Picks(value: string, n: nat, r: string, at: seq<nat>) {
    && |at| == |r|
    && (forall k | 0 <= k < |at| :: n <= at[k] < |value| && !IsControl(value[at[k]]) && r[k] == value[at[k]])
    && (forall k, m | 0 <= k < m < |at| :: at[k] < at[m])
  }

  // A character from `n` on is picked, is a control character, or comes after `limit` that are picked.
  ghost predicate PicksFirst(value: string, n: nat, limit: nat, at: seq<nat>) {
    forall p: nat | n <= p < |value| && !IsControl(value[p]) && p !in at ::
      |at| == limit && forall k | 0 <= k < |at| :: at[k] < p
  }

  /** What cleaning keeps: the characters at the first `limit` places that hold no control character. */
  lemma CleanTakesFirst(value: string, limit: nat) returns (at: seq<nat>)
    ensures Picks(value, 0, Clean(value, limit), at) && PicksFirst(value, 0, limit, at)
  {
    assert value[0..] == value;
    at := CleanTakesFrom(value, 0, limit);
  }

  lemma {:induction false} CleanTakesFrom(value: string, n: nat, limit: nat) returns (at: seq<nat>)
    requires n <= |value|
    ensures Picks(value, n, Clean(value[n..], limit), at) && PicksFirst(value, n, limit, at)
    decreases |value| - n
  {
    hide IsControl, Picks, PicksFirst;
    if n == |value| || limit == 0 {
      at := [];
      PicksNothing(value, n, limit);
    } else {
      assert value[n..][1..] == value[n + 1..];
      if IsControl(value[n]) {
        at := CleanTakesFrom(value, n + 1, limit);
        PicksNotThis(value, n, Clean(value[n + 1..], limit), limit, at);
      } else {
        var rest := CleanTakesFrom(value, n + 1, limit - 1);
        at := [n] + rest;
        PicksThis(value, n, Clean(value[n + 1..], limit - 1), limit, rest);
      }
    }
  }

  lemma PicksNothing(value: string, n: nat, limit: nat)
    requires n >= |value| || limit == 0
    ensures Picks(value, n, "", []) && PicksFirst(value, n, limit, [])
  {
  }

  lemma PicksNotThis(value: string, n: nat, r: string, limit: nat, at: seq<nat>)
    requires n < |value| && IsControl(value[n]) && Picks(value, n + 1, r, at) && PicksFirst(value, n + 1, limit, at)
    ensures Picks(value, n, r, at) && PicksFirst(value, n, limit, at)
  {
    hide IsControl;
  }

  lemma PicksThis(value: string, n: nat, r: string, limit: nat, rest: seq<nat>)
    requires n < |value| && !IsControl(value[n]) && limit > 0
    requires Picks(value, n + 1, r, rest) && PicksFirst(value, n + 1, limit - 1, rest)
    ensures Picks(value, n, [value[n]] + r, [n] + rest) && PicksFirst(value, n, limit, [n] + rest)
  {
    hide IsControl;
    var at := [n] + rest;
    assert forall k | 0 < k < |at| :: at[k] == rest[k - 1];
    assert n in at && forall p | p in rest :: p in at;
  }

  // ---- Log files as values ----

  /** A missing file is None. */
  datatype Files = Files(current: Option<Text>, previous: Option<Text>)

  function Content(file: Option<Text>): Text {
    if file.Some? then file.value else []
  }

  // What the two files hold, oldest byte first.
  function LogText(files: Files): Text {
    Content(files.previous) + Content(files.current)
  }

  // What follows the first newline, or nothing.
  function AfterNewline(text: Text): (r: Text)
    ensures |r| <= |text| && (text != [] ==> |r| < |text|)
  {
    if text == [] then [] else if text[0] == NEWLINE then text[1..] else AfterNewline(text[1..])
  }

  // What an oversize file keeps: the lines that begin in its last LOG_LIMIT bytes.
  function Shortened(text: Text): (r: Text)
    requires |text| > LOG_LIMIT
    ensures |r| < LOG_LIMIT
  {
    AfterNewline(text[|text| - LOG_LIMIT..])
  }

  // What rotation leaves when nothing fails.
  function Rotated(files: Files, incoming: nat): Files {
    var text := Content(files.current);
    if files.current.None? || |text| + incoming <= LOG_LIMIT then files
    else if |text| <= LOG_LIMIT then Files(None, Some(text))
    else Files(Some([]), Some(Shortened(text)))
  }

  function Appended(files: Files, line: Text): Files {
    files.(current := Some(Content(files.current) + line))
  }

  // ---- The service ----

  /** Which file operations fail; `copied` is how much of an oversize file was moved before an error,
      `torn` how much of a line was written before one. */
  datatype Faults = Faults(
    stat: bool, remove: bool, rename: bool, open: bool, copied: Option<nat>, truncate: bool, torn: Option<nat>)

  const NO_FAULTS := Faults(false, false, false, false, None, false, None)

  function LastEntries(entries: seq<Entry>): (r: seq<Entry>)
    ensures |r| <= ENTRY_LIMIT
  {
    if |entries| <= ENTRY_LIMIT then entries else entries[|entries| - ENTRY_LIMIT..]
  }

  predicate EndsLine(text: Text) {
    text == [] || text[|text| - 1] == NEWLINE
  }

  // `kept` is a suffix of `history` that begins where a line begins.
  predicate IsTail(kept: Text, history: Text) {
    |kept| <= |history| && history[|history| - |kept|..] == kept
  }

  predicate IsLineTail(kept: Text, history: Text) {
    IsTail(kept, history) && EndsLine(history[..|history| - |kept|])
  }

  // The log is a tail of everything written, within the limit; and of whole lines if none was torn.
  ghost predicate Sound(files: Files, written: Text, whole: bool) {
    && |Content(files.current)| <= LOG_LIMIT
    && IsTail(LogText(files), written)
    && (whole ==>
          && IsLineTail(LogText(files), written)
          && EndsLine(Content(files.current)) && EndsLine(Content(files.previous)))
  }

  class DiagnosticsService {
    var current: Option<Text>
    var previous: Option<Text>
    var entries: seq<Entry>

    // Every byte ever put in the log, every entry ever recorded, and whether all lines are whole.
    ghost var written: Text
    ghost var recorded: seq<Entry>
    ghost var whole: bool

    function LogFiles(): Files
      reads this
    {
      Files(current, previous)
    }

    ghost predicate Valid()
      reads this
    {
      entries == LastEntries(recorded) && Sound(LogFiles(), written, whole)
    }

    /** The files as an earlier process left them. */
    constructor (current: Option<Text>, previous: Option<Text>)
      ensures LogFiles() == Files(current, previous) && entries == [] && recorded == []
      ensures written == LogText(Files(current, previous))
      ensures whole == (EndsLine(Content(current)) && EndsLine(Content(previous)))
    {
      this.current := current;
      this.previous := previous;
      entries := [];
      recorded := [];
      written := LogText(Files(current, previous));
      whole := EndsLine(Content(current)) && EndsLine(Content(previous));
    }

    method RotateLog(incoming: nat, faults: Faults) returns (ok: bool)
      modifies this`current, this`previous
      ensures ok ==> LogFiles() == Rotated(old(LogFiles()), incoming)
      ensures faults == NO_FAULTS ==> ok
      ensures !ok && |Content(old(current))| <= LOG_LIMIT ==>
        current == old(current) && (previous == old(previous) || previous == None)
    {
      if faults.stat {
        return false;
      }
      if current.None? {
        return true;
      }
      var text := current.value;
      if |text| + incoming <= LOG_LIMIT {
        return true;
      }
      if faults.remove {
        return false;
      }
      previous := None;
      if |text| <= LOG_LIMIT {
        if faults.rename {
          return false;
        }
        previous := current;
        current := None;
        return true;
      }
      if faults.open {
        return false;
      }
      var tail := Shortened(text);
      if faults.copied.Some? {
        previous := Some(tail[..Min(faults.copied.value, |tail|)]);
        return false;
      }
      previous := Some(tail);
      if faults.truncate {
        return false;
      }
      current := Some([]);
      return true;
    }

    /** Start-up: one rotation; a failure means the service does not start. */
    method Open(faults: Faults) returns (ok: bool)
      requires entries == [] && recorded == [] && written == LogText(LogFiles())
      requires whole == (EndsLine(Content(current)) && EndsLine(Content(previous)))
      modifies this`current, this`previous, this`whole
      ensures ok ==> Valid() && LogFiles() == Rotated(old(LogFiles()), 0)
      ensures ok && old(whole) ==> whole
      ensures faults == NO_FAULTS ==> ok
    {
      RotationIsSound(LogFiles(), 0, written, whole);
      ok := RotateLog(0, faults);
    }

    /** One record: the entry joins the bounded list whatever the files do; its line reaches the log whole
        unless a file operation fails, and no failure loses the order or the bounds. */
    method Record(atMs: nat, area: string, event: string, detail: string, faults: Faults)
      requires Valid() && atMs < 0x1_0000_0000_0000_0000_0000_0000_0000_0000
      modifies this
      ensures Valid()
      ensures recorded == old(recorded) + [MakeEntry(atMs, area, event, detail)]
      ensures faults == NO_FAULTS ==>
        var line := Line(MakeEntry(atMs, area, event, detail));
        && LogFiles() == Appended(Rotated(old(LogFiles()), |line|), line)
        && written == old(written) + line && whole == old(whole)
      ensures entries == recorded[if |recorded| <= 1200 then 0 else |recorded| - 1200..]
      ensures current.Some? ==> |current.value| <= 5 * 1024 * 1024
      ensures faults == NO_FAULTS ==>
        var line := Line(MakeEntry(atMs, area, event, detail));
        current.Some? && |line| <= |current.value| && current.value[|current.value| - |line|..] == line
      ensures faults.torn.None? ==> whole == old(whole)
      ensures old(written) <= written <= old(written) + Line(MakeEntry(atMs, area, event, detail))
      ensures |Content(old(previous))| <= LOG_LIMIT ==> |Content(previous)| <= LOG_LIMIT
    {
      hide IsLine, Line, MakeEntry, Sound, Rotated;
      var entry := MakeEntry(atMs, area, event, detail);
      OneMoreEntry(recorded, entry);
      recorded := recorded + [entry];
      if |entries| == ENTRY_LIMIT {
        entries := entries[1..];
      }
      entries := entries + [entry];
      var line := Line(entry);
      EntryIsOneLine(atMs, area, event, detail);
      SoundRotation(LogFiles(), |line|, written, whole);
      RotationMakesRoom(LogFiles(), line, written, whole);
      var rotated := RotateLog(|line|, faults);
      if !rotated || faults.open {
        return;
      }
      var count := if faults.torn.Some? then Min(faults.torn.value, |line|) else |line|;
      AppendIsSound(LogFiles(), written, whole, line, count);
      assert line[..|line|] == line;
      current := Some(Content(current) + line[..count]);
      written := written + line[..count];
      whole := whole && faults.torn.None?;
    }
  }

  lemma OneMoreEntry(recorded: seq<Entry>, e: Entry)
    ensures
      var entries := LastEntries(recorded);
      LastEntries(recorded + [e]) == (if |entries| == ENTRY_LIMIT then entries[1..] else entries) + [e]
  {
  }

  // ---- Rotation as a whole ----

  lemma {:induction false} AfterNewlineIsTail(text: Text)
    ensures IsTail(AfterNewline(text), text)
    ensures EndsLine(text) ==> IsLineTail(AfterNewline(text), text)
    decreases |text|
  {
    if text != [] && text[0] != NEWLINE {
      var rest := text[1..];
      AfterNewlineIsTail(rest);
      var n := |rest| - |AfterNewline(rest)|;
      assert text[..n + 1] == [text[0]] + rest[..n];
    }
  }

  lemma TailOfTail(a: Text, b: Text, c: Text)
    requires IsTail(a, b) && IsTail(b, c)
    ensures IsTail(a, c)
  {
    assert c[|c| - |a|..] == c[|c| - |b|..][|b| - |a|..];
  }

  lemma LineTailOfTail(a: Text, b: Text, c: Text)
    requires IsLineTail(a, b) && IsLineTail(b, c)
    ensures IsLineTail(a, c)
  {
    TailOfTail(a, b, c);
    var n := |c| - |a|;
    if |a| < |b| {
      assert c[n - 1] == c[|c| - |b|..][|b| - |a| - 1];
    }
  }

  lemma ShortenedIsTail(text: Text)
    requires |text| > LOG_LIMIT
    ensures IsTail(Shortened(text), text)
    ensures EndsLine(text) ==> IsLineTail(Shortened(text), text) && EndsLine(Shortened(text))
  {
    var n := |text| - LOG_LIMIT;
    AfterNewlineIsTail(text[n..]);
    hide AfterNewline;
    TailOfWindow(AfterNewline(text[n..]), text, n);
  }

  lemma TailOfWindow(rest: Text, text: Text, n: nat)
    requires n < |text| && |rest| < |text| - n && IsTail(rest, text[n..])
    requires EndsLine(text[n..]) ==> IsLineTail(rest, text[n..])
    ensures IsTail(rest, text)
    ensures EndsLine(text) ==> IsLineTail(rest, text) && EndsLine(rest)
  {
    var window := text[n..];
    TailOfTail(rest, window, text);
    assert window[|window| - 1] == text[|text| - 1];
    var cut := |window| - |rest|;
    assert window[..cut][cut - 1] == window[cut - 1] == text[|text| - |rest| - 1];
    assert rest != [] ==> rest[|rest| - 1] == text[|text| - 1];
  }

  // The current file is itself a tail of the log, and rotation keeps a tail of it or everything.
  lemma CurrentIsTail(files: Files)
    ensures IsTail(Content(files.current), LogText(files))
    ensures EndsLine(Content(files.previous)) ==> IsLineTail(Content(files.current), LogText(files))
    ensures LogText(files.(previous := None)) == Content(files.current)
  {
    var text := Content(files.current);
    assert LogText(files)[..|LogText(files)| - |text|] == Content(files.previous);
  }

  lemma RotationCases(files: Files, incoming: nat)
    ensures
      var text := Content(files.current);
      var kept := LogText(Rotated(files, incoming));
      Rotated(files, incoming) == files || kept == text || (|text| > LOG_LIMIT && kept == Shortened(text))
  {
  }

  lemma RotationKeepsTail(files: Files, incoming: nat, history: Text)
    requires IsTail(LogText(files), history)
    ensures IsTail(LogText(Rotated(files, incoming)), history)
    ensures IsTail(LogText(files.(previous := None)), history)
  {
    var text := Content(files.current);
    CurrentIsTail(files);
    TailOfTail(text, LogText(files), history);
    RotationCases(files, incoming);
    if |text| > LOG_LIMIT {
      ShortenedIsTail(text);
      TailOfTail(Shortened(text), text, history);
    }
    hide Rotated, Shortened, LogText, IsTail;
  }

  lemma RotationEndsLines(files: Files, incoming: nat)
    requires EndsLine(Content(files.current)) && EndsLine(Content(files.previous))
    ensures EndsLine(Content(Rotated(files, incoming).current))
    ensures EndsLine(Content(Rotated(files, incoming).previous))
  {
    if |Content(files.current)| > LOG_LIMIT {
      ShortenedIsTail(Content(files.current));
    }
    hide Shortened;
  }

  lemma RotationKeepsLineTail(files: Files, incoming: nat, history: Text)
    requires IsLineTail(LogText(files), history)
    requires EndsLine(Content(files.current)) && EndsLine(Content(files.previous))
    ensures IsLineTail(LogText(Rotated(files, incoming)), history)
    ensures IsLineTail(LogText(files.(previous := None)), history)
  {
    var text := Content(files.current);
    CurrentIsTail(files);
    LineTailOfTail(text, LogText(files), history);
    RotationCases(files, incoming);
    if |text| > LOG_LIMIT {
      ShortenedIsTail(text);
      LineTailOfTail(Shortened(text), text, history);
    }
    hide Rotated, Shortened, LogText, IsLineTail;
  }

  /** An oversize file keeps every line that begins in its last five megabytes. */
  lemma ShortenedKeepsLines(text: Text, k: nat)
    requires |text| - 5 * 1024 * 1024 <= k < |text| && |text| > LOG_LIMIT && text[k] == NEWLINE
    ensures |Shortened(text)| >= |text| - (k + 1)
    ensures IsTail(text[k + 1..], Shortened(text))
  {
    var window := text[|text| - LOG_LIMIT..];
    var i := k - (|text| - LOG_LIMIT);
    assert window[i] == text[k];
    AfterNewlineKeeps(window, i);
    ShortenedIsTail(text);
  }

  lemma {:induction false} AfterNewlineKeeps(text: Text, k: nat)
    requires k < |text| && text[k] == NEWLINE
    ensures |AfterNewline(text)| >= |text| - (k + 1)
    decreases |text|
  {
    if text[0] != NEWLINE {
      AfterNewlineKeeps(text[1..], k - 1);
    }
  }

  /** Every outcome of a rotation keeps the log a tail of what was written. */
  lemma RotationIsSound(files: Files, incoming: nat, written: Text, whole: bool)
    requires IsTail(LogText(files), written)
    requires whole ==> IsLineTail(LogText(files), written)
    requires whole ==> EndsLine(Content(files.current)) && EndsLine(Content(files.previous))
    ensures Sound(Rotated(files, incoming), written, whole)
    ensures |Content(files.current)| <= LOG_LIMIT ==> Sound(files.(previous := None), written, whole)
  {
    RotationKeepsTail(files, incoming, written);
    if whole {
      RotationKeepsLineTail(files, incoming, written);
      RotationEndsLines(files, incoming);
    }
    hide LogText, IsTail, IsLineTail;
  }

  lemma SoundRotation(files: Files, incoming: nat, written: Text, whole: bool)
    requires Sound(files, written, whole)
    ensures Sound(Rotated(files, incoming), written, whole)
    ensures Sound(files.(previous := None), written, whole)
  {
    RotationIsSound(files, incoming, written, whole);
  }

  lemma RotationMakesRoom(files: Files, line: Text, written: Text, whole: bool)
    requires Sound(files, written, whole) && IsLine(line)
    ensures |Content(Rotated(files, |line|).current)| + |line| <= LOG_LIMIT
    ensures
      |Content(files.previous)| <= LOG_LIMIT ==> |Content(Rotated(files, |line|).previous)| <= LOG_LIMIT
  {
    hide LogText, IsTail, IsLineTail;
  }

  lemma AppendIsSound(files: Files, written: Text, whole: bool, line: Text, count: nat)
    requires Sound(files, written, whole) && IsLine(line) && count <= |line|
    requires |Content(files.current)| + |line| <= LOG_LIMIT
    ensures Sound(Appended(files, line[..count]), written + line[..count], whole && count == |line|)
    ensures Sound(Appended(files, line[..count]), written + line[..count], false)
  {
    var part := line[..count];
    var kept := LogText(files);
    assert LogText(Appended(files, part)) == kept + part;
    var n := |written| - |kept|;
    assert (written + part)[n..] == written[n..] + part;
    assert (written + part)[..n] == written[..n];
  }

  // ---- Runs without a failure ----

  function Recorded(files: Files, line: Text): Files {
    Appended(Rotated(files, |line|), line)
  }

  function Logged(files: Files, lines: seq<Text>): Files
    decreases |lines|
  {
    if lines == [] then files else Logged(Recorded(files, lines[0]), lines[1..])
  }

  function Concat(lines: seq<Text>): Text {
    if lines == [] then [] else lines[0] + Concat(lines[1..])
  }

  predicate AllLines(lines: seq<Text>) {
    forall i :: 0 <= i < |lines| ==> IsLine(lines[i])
  }

  // Nothing was dropped yet, or little less than the limit is still there.
  ghost predicate Roomy(files: Files, written: Text) {
    LogText(files) == written || |LogText(files)| + LINE_LIMIT > LOG_LIMIT
  }

  lemma RecordedIsSound(files: Files, written: Text, line: Text)
    requires Sound(files, written, true) && |Content(files.previous)| <= LOG_LIMIT && IsLine(line)
    ensures Sound(Recorded(files, line), written + line, true)
    ensures |Content(Recorded(files, line).previous)| <= LOG_LIMIT
  {
    hide Sound, Rotated, IsLine;
    SoundRotation(files, |line|, written, true);
    RotationMakesRoom(files, line, written, true);
    AppendIsSound(Rotated(files, |line|), written, true, line, |line|);
    assert line[..|line|] == line;
  }

  lemma RecordedIsRoomy(files: Files, written: Text, line: Text)
    requires Sound(files, written, true) && IsLine(line) && Roomy(files, written)
    ensures Roomy(Recorded(files, line), written + line)
  {
    SoundIsBounded(files, written, line);
    hide Sound, IsLine, Rotated, LogText;
    AppendedText(Rotated(files, |line|), line);
    FullOrSame(files, |line|);
  }

  lemma SoundIsBounded(files: Files, written: Text, line: Text)
    requires Sound(files, written, true) && IsLine(line)
    ensures |Content(files.current)| <= LOG_LIMIT && |line| <= LINE_LIMIT
  {
    hide IsTail, IsLineTail, LogText;
  }

  lemma AppendedText(files: Files, line: Text)
    ensures LogText(Appended(files, line)) == LogText(files) + line
  {
  }

  // Rotation leaves a log within its limit alone, or drops no more than what the line needs.
  lemma FullOrSame(files: Files, incoming: nat)
    requires |Content(files.current)| <= LOG_LIMIT
    ensures Rotated(files, incoming) == files || |LogText(Rotated(files, incoming))| + incoming > LOG_LIMIT
  {
    hide Shortened;
  }

  lemma {:induction false} RunIsSound(files: Files, written: Text, lines: seq<Text>)
    requires Sound(files, written, true) && |Content(files.previous)| <= LOG_LIMIT && AllLines(lines)
    ensures Sound(Logged(files, lines), written + Concat(lines), true)
    ensures |Content(Logged(files, lines).previous)| <= LOG_LIMIT
    decreases |lines|
  {
    hide Sound, IsLine, Recorded;
    if lines == [] {
      assert written + [] == written;
    } else {
      RecordedIsSound(files, written, lines[0]);
      RunIsSound(Recorded(files, lines[0]), written + lines[0], lines[1..]);
      assert written + Concat(lines) == written + lines[0] + Concat(lines[1..]);
    }
  }

  lemma {:induction false} RunIsRoomy(files: Files, written: Text, lines: seq<Text>)
    requires Sound(files, written, true) && |Content(files.previous)| <= LOG_LIMIT && AllLines(lines)
    requires Roomy(files, written)
    ensures Roomy(Logged(files, lines), written + Concat(lines))
    decreases |lines|
  {
    hide Sound, IsLine, Recorded, Roomy;
    if lines == [] {
      assert written + [] == written;
    } else {
      RecordedIsSound(files, written, lines[0]);
      RecordedIsRoomy(files, written, lines[0]);
      RunIsRoomy(Recorded(files, lines[0]), written + lines[0], lines[1..]);
      assert written + Concat(lines) == written + lines[0] + Concat(lines[1..]);
    }
  }

  // ---- Main results ----

  /** With no failure, from files that end their lines, the previous file followed by the current one is
      at all times a line-aligned tail of everything written, and each keeps to the limit. */
  lemma LogIsALineTail(files: Files, lines: seq<Text>)
    requires EndsLine(Content(files.current)) && EndsLine(Content(files.previous))
    requires |Content(files.previous)| <= LOG_LIMIT && AllLines(lines)
    ensures
      var end := Logged(Rotated(files, 0), lines);
      && IsLineTail(LogText(end), LogText(files) + Concat(lines))
      && |Content(end.current)| <= LOG_LIMIT && |Content(end.previous)| <= LOG_LIMIT
  {
    RotationIsSound(files, 0, LogText(files), true);
    RunIsSound(Rotated(files, 0), LogText(files), lines);
    hide Logged, Concat, IsLineTail, IsTail, Rotated, LogText;
  }

  /** What rotation drops is only ever the oldest: either nothing was dropped, or all but LINE_LIMIT of the
      last LOG_LIMIT bytes at least are still there. */
  lemma LogKeepsTheRecent(files: Files, lines: seq<Text>)
    requires EndsLine(Content(files.current)) && EndsLine(Content(files.previous))
    requires |Content(files.current)| <= LOG_LIMIT && |Content(files.previous)| <= LOG_LIMIT && AllLines(lines)
    ensures
      var kept := LogText(Logged(files, lines));
      kept == LogText(files) + Concat(lines) || |kept| > LOG_LIMIT - LINE_LIMIT
  {
    assert LogText(files)[0..] == LogText(files);
    RunIsRoomy(files, LogText(files), lines);
  }
}
