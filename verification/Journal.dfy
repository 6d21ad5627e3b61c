/** The journal of finished steps: a file of lines, one record each, read back after a
    crash. How a record is written is left open; it fits on one line and reads back. */
module Journals {
  import opened Core
  import opened Utf8

  datatype Record = Record(run: string, fingerprint: string, step: nat, outputId: DataId)

  /** A way to write records: one line each, and readable again. */
  datatype Format = Format(write: Record -> string, read: string -> Option<Record>)

  ghost predicate Sane(f: Format) {
    forall r: Record ::
      && '\n' !in f.write(r)
      && f.write(r) != []
      && f.read(f.write(r)) == Some(r)
  }

  // ---- Lines ----

  type Bytes = seq<byte>

  const END: byte := 10

  /** A record as it is put in the file. */
  function Line(f: Format, r: Record): Bytes {
    Encode(f.write(r))
  }

  predicate IsBlank(line: string) {
    forall c | c in line :: c == ' ' || c == '\t' || c == '\r'
  }

  /** The lines of a file, without their ends. A last line without an end still counts. */
  function Lines(text: Bytes): seq<Bytes> {
    LinesFrom(text, [])
  }

  function LinesFrom(text: Bytes, current: Bytes): seq<Bytes>
    decreases |text|
  {
    if text == [] then (if current == [] then [] else [current])
    else if text[0] == END then [current] + LinesFrom(text[1..], [])
    else LinesFrom(text[1..], current + [text[0]])
  }

  /** The records in `lines`; a line that does not read is passed over. */
  function Readable(f: Format, lines: seq<Bytes>): seq<Record> {
    if lines == [] then [] else InLine(f, lines[0]) + Readable(f, lines[1..])
  }

  function InLine(f: Format, line: Bytes): seq<Record> {
    match Decode(line)
    case None => []
    case Some(text) => InText(f, text)
  }

  function InText(f: Format, line: string): seq<Record> {
    if IsBlank(line) then []
    else match f.read(line) case Some(r) => [r] case None => []
  }

  function RecordsIn(f: Format, text: Bytes): seq<Record> {
    Readable(f, Lines(text))
  }

  // ---- The journal ----

  datatype CheckpointError = NotText | Fingerprint(recorded: string, submitted: string)

  predicate AllText(lines: seq<Bytes>) {
    forall line | line in lines :: IsText(line)
  }

  /** What reading the file gives: a line that is no text, unlike one that is no record,
      is not passed over but fails the whole. */
  function ReadBack(f: Format, text: Bytes): Result<seq<Record>, CheckpointError> {
    if AllText(Lines(text)) then Ok(RecordsIn(f, text)) else Err(NotText)
  }

  /** The steps of `run` among `records`, the latest record of a step winning. */
  function CompletedIn(records: seq<Record>, run: string, fingerprint: string): Result<map<nat, Record>, CheckpointError> {
    Collect(records, run, fingerprint, map[])
  }

  function Collect(records: seq<Record>, run: string, fingerprint: string, sofar: map<nat, Record>)
    : Result<map<nat, Record>, CheckpointError>
    decreases |records|
  {
    if records == [] then Ok(sofar)
    else if records[0].run != run then Collect(records[1..], run, fingerprint, sofar)
    else if records[0].fingerprint != fingerprint then Err(Fingerprint(records[0].fingerprint, fingerprint))
    else Collect(records[1..], run, fingerprint, sofar[records[0].step := records[0]])
  }

  function CompletedOf(read: Result<seq<Record>, CheckpointError>, run: string, fingerprint: string)
    : Result<map<nat, Record>, CheckpointError>
  {
    match read
    case Err(e) => Err(e)
    case Ok(records) => CompletedIn(records, run, fingerprint)
  }

  class Journal {
    const format: Format
    var file: Bytes

    constructor (format: Format)
      ensures this.format == format && file == []
    {
      this.format := format;
      file := [];
    }

    /** One line more. If nothing was cut short before, it is read back after everything
        that was there, and nothing is cut short now. */
    method Append(record: Record)
      modifies this
      ensures file == old(file) + Line(format, record) + [END]
      ensures Sane(format) && Visible(format) && Whole(old(file)) && AllText(Lines(old(file))) ==>
                Whole(file) && ReadBack(format, file) == Ok(RecordsIn(format, old(file)) + [record])
    {
      file := file + (Line(format, record) + [END]);
      if Sane(format) && Visible(format) && Whole(old(file)) { AppendAdds(format, old(file), record); }
    }

    method Records() returns (r: Result<seq<Record>, CheckpointError>)
      ensures r == ReadBack(format, file)
    {
      hide Lines, Readable, InText, Decode;
      var records := [];
      var lines := Lines(file);
      assert lines[0..] == lines;
      NoneReadable(format, lines);
      for i := 0 to |lines|
        invariant records + Readable(format, lines[i..]) == RecordsIn(format, file)
        invariant AllText(lines[..i])
      {
        ReadableStep(format, lines, i);
        assert lines[..i + 1] == lines[..i] + [lines[i]];
        var line := Decode(lines[i]);
        if line.None? {
          assert lines[i] in lines && !IsText(lines[i]);
          return Err(NotText);
        }
        if IsBlank(line.value) { continue; }
        match format.read(line.value) {
          case Some(record) => records := records + [record];
          case None =>
        }
      }
      assert lines[..|lines|] == lines;
      assert records == RecordsIn(format, file);
      return Ok(records);
    }

    method Completed(run: string, fingerprint: string) returns (r: Result<map<nat, Record>, CheckpointError>)
      ensures r == CompletedOf(ReadBack(format, file), run, fingerprint)
    {
      var completed: map<nat, Record> := map[];
      var read := Records();
      if read.Err? { return Err(read.error); }
      var records := read.value;
      for i := 0 to |records|
        invariant Collect(records[i..], run, fingerprint, completed) == CompletedIn(records, run, fingerprint)
      {
        assert records[i..][1..] == records[i + 1..];
        var record := records[i];
        if record.run != run { continue; }
        if record.fingerprint != fingerprint {
          return Err(Fingerprint(record.fingerprint, fingerprint));
        }
        completed := completed[record.step := record];
      }
      return Ok(completed);
    }
  }

  lemma {:induction false} ReadableStep(f: Format, lines: seq<Bytes>, i: nat)
    requires i < |lines|
    ensures Readable(f, lines[i..]) == InLine(f, lines[i]) + Readable(f, lines[i + 1..])
    ensures IsText(lines[i]) ==>
              var line := Decode(lines[i]).value;
              InLine(f, lines[i]) == if IsBlank(line) || f.read(line).None? then [] else [f.read(line).value]
  {
    assert lines[i..][1..] == lines[i + 1..];
  }

  lemma {:induction false} NoneReadable(f: Format, lines: seq<Bytes>)
    ensures Readable(f, lines[|lines|..]) == []
  {}

  // ---- Round trip ----

  lemma {:induction false} LinesSplit(a: Bytes, b: Bytes, current: Bytes)
    requires END !in a
    ensures LinesFrom(a + [END] + b, current) == [current + a] + Lines(b)
    decreases |a|
  {
    if a == [] {
      assert (a + [END] + b)[1..] == b;
      assert current + a == current;
    } else {
      assert (a + [END] + b)[1..] == a[1..] + [END] + b;
      LinesSplit(a[1..], b, current + [a[0]]);
      assert current + [a[0]] + a[1..] == current + a;
    }
  }

  /** A file whose last line is ended keeps its lines whatever is written after it. */
  lemma {:induction false} LinesAppend(text: Bytes, more: Bytes, current: Bytes)
    requires text != [] && text[|text| - 1] == END
    ensures LinesFrom(text + more, current) == LinesFrom(text, current) + Lines(more)
    decreases |text|
  {
    assert (text + more)[1..] == text[1..] + more;
    if |text| == 1 {
      assert text[1..] + more == more;
    } else if text[0] == END {
      LinesAppend(text[1..], more, []);
    } else {
      LinesAppend(text[1..], more, current + [text[0]]);
    }
  }

  lemma {:induction false} ReadableAppend(f: Format, a: seq<Bytes>, b: seq<Bytes>)
    ensures Readable(f, a + b) == Readable(f, a) + Readable(f, b)
    decreases |a|
  {
    if a == [] {
      assert a + b == b;
    } else {
      assert (a + b)[1..] == a[1..] + b;
      ReadableAppend(f, a[1..], b);
    }
  }

  /** Nothing was cut short: the file is empty or its last line is ended. */
  predicate Whole(text: Bytes) {
    text == [] || text[|text| - 1] == END
  }

  /** The lines of a file one ended line longer. */
  lemma {:induction false} OneLineMore(text: Bytes, line: Bytes)
    requires Whole(text) && END !in line
    ensures Lines(text + line + [END]) == Lines(text) + [line]
  {
    LinesSplit(line, [], []);
    assert line + [END] + [] == line + [END] && [] + line == line;
    assert Lines(line + [END]) == [line] + Lines([]) == [line];
    assert text + line + [END] == text + (line + [END]);
    if text != [] {
      LinesAppend(text, line + [END], []);
    } else {
      assert text + line + [END] == line + [END];
    }
  }

  /** What one line adds to the reading. */
  lemma {:induction false} LineReads(f: Format, lines: seq<Bytes>, line: Bytes)
    ensures Readable(f, lines + [line]) == Readable(f, lines) + InLine(f, line)
    ensures AllText(lines + [line]) <==> AllText(lines) && IsText(line)
  {
    ReadableAppend(f, lines, [line]);
    assert [line][1..] == [];
    assert line in lines + [line] && forall l | l in lines :: l in lines + [line];
  }

  lemma {:induction false} OneLine(f: Format, r: Record)
    requires Sane(f)
    ensures END !in Line(f, r) && Decode(Line(f, r)) == Some(f.write(r)) && Line(f, r) != []
  {
    assert '\n' !in f.write(r) && f.write(r) != [];
    PlainByte(f.write(r), '\n');
    Utf8.RoundTrip(f.write(r));
  }

  /** What one append leaves to be read: everything before, and one line made of
      whatever the file ended with and the new record. */
  lemma {:induction false} AppendReads(f: Format, text: Bytes, torn: Bytes, record: Record)
    requires Sane(f) && Whole(text) && END !in torn
    ensures var all, line := text + torn + Line(f, record) + [END], torn + Line(f, record);
            && RecordsIn(f, all) == RecordsIn(f, text) + InLine(f, line)
            && (AllText(Lines(all)) <==> AllText(Lines(text)) && IsText(line))
  {
    hide Lines, InLine, AllText, Line, Decode;
    var line := torn + Line(f, record);
    OneLine(f, record);
    OneLineMore(text, line);
    assert text + torn + Line(f, record) + [END] == text + line + [END];
    LineReads(f, Lines(text), line);
  }

  lemma {:induction false} AppendAdds(f: Format, text: Bytes, record: Record)
    requires Sane(f) && Visible(f) && Whole(text)
    ensures var all := text + Line(f, record) + [END];
            RecordsIn(f, all) == RecordsIn(f, text) + [record] && (AllText(Lines(all)) <==> AllText(Lines(text)))
  {
    hide RecordsIn, IsBlank, Line, Lines, Decode;
    AppendReads(f, text, [], record);
    OneLine(f, record);
    assert text + [] == text && [] + Line(f, record) == Line(f, record);
    assert f.read(f.write(record)) == Some(record) && !IsBlank(f.write(record));
  }

  /** The file after appending `records` to nothing. */
  function Written(f: Format, records: seq<Record>): Bytes {
    if records == [] then []
    else Written(f, records[..|records| - 1]) + Line(f, records[|records| - 1]) + [END]
  }

  /** Formats whose records are never mistaken for empty lines. */
  ghost predicate Visible(f: Format) {
    forall r: Record :: !IsBlank(f.write(r))
  }

  /** Everything appended is read back, in order. */
  lemma {:induction false} RoundTrip(f: Format, records: seq<Record>)
    requires Sane(f) && Visible(f)
    ensures ReadBack(f, Written(f, records)) == Ok(records) && Whole(Written(f, records))
    decreases |records|
  {
    hide RecordsIn, IsBlank, Line, Lines, AllText, Sane, Visible;
    if records == [] {
      NothingThere(f);
    } else {
      var last := |records| - 1;
      RoundTrip(f, records[..last]);
      AppendAdds(f, Written(f, records[..last]), records[last]);
      assert records == records[..last] + [records[last]];
    }
  }

  lemma {:induction false} NothingThere(f: Format)
    ensures RecordsIn(f, []) == [] && AllText(Lines([]))
  {}

  // ---- A write cut short ----

  /** Neither part of a record nor a record run into another reads as anything: true of
      any format, like a JSON object per line, whose records show where they end. */
  ghost predicate Unsplittable(f: Format) {
    && (forall r: Record, torn: string :: torn < f.write(r) ==> f.read(torn) == None)
    && (forall r: Record, torn: string, next: Record ::
          torn <= f.write(r) && torn != [] ==> f.read(torn + f.write(next)) == None)
  }

  /** An unended last line is a line too. */
  lemma {:induction false} TailReads(f: Format, text: Bytes, torn: Bytes)
    requires Whole(text) && END !in torn && torn != []
    ensures RecordsIn(f, text + torn) == RecordsIn(f, text) + InLine(f, torn)
    ensures AllText(Lines(text + torn)) <==> AllText(Lines(text)) && IsText(torn)
  {
    TailLine(torn, []);
    if text == [] {
      assert text + torn == torn;
    } else {
      LinesAppend(text, torn, []);
    }
    assert [] + torn == torn;
    assert Lines(text + torn) == Lines(text) + [torn];
    hide Lines, InLine, AllText, IsText;
    LineReads(f, Lines(text), torn);
  }

  lemma {:induction false} TailLine(torn: Bytes, current: Bytes)
    requires END !in torn
    ensures LinesFrom(torn, current) == if current + torn == [] then [] else [current + torn]
    decreases |torn|
  {
    if torn == [] {
      assert current + torn == current;
    } else {
      TailLine(torn[1..], current + [torn[0]]);
      assert current + [torn[0]] + torn[1..] == current + torn;
    }
  }

  /** What is left of a line, on its own and with a record run into it. */
  lemma {:induction false} TornReads(f: Format, cut: Record, torn: Bytes, next: Record)
    requires Sane(f) && Visible(f) && Unsplittable(f) && torn <= Line(f, cut) && torn != []
    ensures IsText(torn + Line(f, next)) <==> IsText(torn)
    ensures InLine(f, torn) == if torn == Line(f, cut) then [cut] else []
    ensures InLine(f, torn + Line(f, next)) == []
  {
    CutShort(f.write(cut), torn, f.write(next));
    OneLine(f, cut);
    assert f.read(f.write(cut)) == Some(cut) && !IsBlank(f.write(cut));
    if IsText(torn) {
      DecodeSound(torn);
      var part := Decode(torn).value;
      assert part <= f.write(cut) && part != [] by { assert Encode([]) == []; }
      assert torn == Line(f, cut) <==> part == f.write(cut);
      assert Decode(torn + Line(f, next)) == Some(part + f.write(next));
      hide Decode, Encode, Line, IsBlank;
      assert part < f.write(cut) ==> f.read(part) == None;
      assert f.read(part + f.write(next)) == None;
    }
  }

  /** A crash while `cut` is being written leaves some of its line, and perhaps all of it
      but the end. Cut between two characters, what is left reads back exactly when it is
      all there, and the next record lands on the same line: both are lost, unless nothing
      of `cut` was left. Cut inside a character, the whole file is refused, before the next
      record is written and after. */
  lemma {:induction false} TornLineTakesTheNext(f: Format, records: seq<Record>, cut: Record, torn: Bytes,
                                                next: Record)
    requires Sane(f) && Visible(f) && Unsplittable(f) && torn <= Line(f, cut)
    ensures IsText(torn) <==> exists n :: 0 <= n <= |f.write(cut)| && torn == Encode(f.write(cut)[..n])
    ensures ReadBack(f, Written(f, records) + torn)
         == if IsText(torn) then Ok(records + if torn == Line(f, cut) then [cut] else []) else Err(NotText)
    ensures ReadBack(f, Written(f, records) + torn + Line(f, next) + [END])
         == if IsText(torn) then Ok(if torn == [] then records + [next] else records) else Err(NotText)
  {
    hide RecordsIn, IsBlank, Lines, AllText, Decode, Encode, Sane, Visible, Unsplittable, InLine;
    CutShort(f.write(cut), torn, f.write(next));
    hide Line;
    RoundTrip(f, records);
    hide Written;
    if torn == [] {
      NothingLeft(f, Written(f, records), records, next);
      OneLine(f, cut);
      assert records + [] == records;
      assert IsText([]) by { CutNothing(); }
    } else {
      SomethingLeft(f, Written(f, records), records, cut, torn, next);
    }
  }

  lemma {:induction false} CutNothing()
    ensures IsText([])
  {}

  lemma {:induction false} NothingLeft(f: Format, text: Bytes, records: seq<Record>, next: Record)
    requires Sane(f) && Visible(f) && Whole(text) && ReadBack(f, text) == Ok(records)
    ensures text + [] == text && ReadBack(f, text + [] + Line(f, next) + [END]) == Ok(records + [next])
  {
    hide RecordsIn, IsBlank, Lines, AllText, Decode, Encode, Line;
    AppendAdds(f, text, next);
    assert text + [] == text;
  }

  lemma {:induction false} SomethingLeft(f: Format, text: Bytes, records: seq<Record>, cut: Record, torn: Bytes,
                                         next: Record)
    requires Sane(f) && Visible(f) && Unsplittable(f) && torn <= Line(f, cut) && torn != []
    requires Whole(text) && ReadBack(f, text) == Ok(records)
    ensures ReadBack(f, text + torn)
         == if IsText(torn) then Ok(records + if torn == Line(f, cut) then [cut] else []) else Err(NotText)
    ensures ReadBack(f, text + torn + Line(f, next) + [END]) == if IsText(torn) then Ok(records) else Err(NotText)
  {
    hide RecordsIn, IsBlank, Lines, AllText, Decode, Encode, Line, Sane, Visible, Unsplittable, InLine;
    OneLine(f, cut);
    assert END !in torn;
    TornReads(f, cut, torn, next);
    TailReads(f, text, torn);
    AppendReads(f, text, torn, next);
    assert records + [] == records;
  }

  /** A file refused for one of its ended lines is refused whatever is written after. */
  lemma {:induction false} RefusedForGood(f: Format, text: Bytes, more: Bytes)
    requires Whole(text) && ReadBack(f, text) == Err(NotText)
    ensures ReadBack(f, text + more) == Err(NotText)
  {
    hide RecordsIn, IsText;
    if text == [] {
      NothingThere(f);
    } else {
      LinesAppend(text, more, []);
      hide LinesFrom;
      var line :| line in Lines(text) && !IsText(line);
      assert line in Lines(text + more);
    }
  }

  // ---- Formats like that exist ----

  function Unary(n: nat): string {
    if n == 0 then "0" else "1" + Unary(n - 1)
  }

  function Marks(ns: seq<nat>): string {
    if ns == [] then "" else Unary(ns[0]) + Marks(ns[1..])
  }

  function CharCodes(s: string): seq<nat> {
    seq(|s|, i requires 0 <= i < |s| => s[i] as nat)
  }

  function ByteCodes(s: seq<byte>): seq<nat> {
    seq(|s|, i requires 0 <= i < |s| => s[i] as nat)
  }

  function Codes(r: Record): seq<nat> {
    [|r.run|, |r.fingerprint|, r.step] + CharCodes(r.run) + CharCodes(r.fingerprint) + ByteCodes(r.outputId.content)
  }

  /** One record between braces, its numbers in unary. */
  function Braced(r: Record): string {
    "{" + Marks(Codes(r)) + "}"
  }

  ghost function Unbraced(line: string): Option<Record> {
    if r: Record :| Braced(r) == line then Some(r) else None
  }

  ghost function Unaries(): Format {
    Format(Braced, (line: string) => Unbraced(line))
  }

  lemma {:induction false} UnaryPlain(n: nat)
    ensures forall c | c in Unary(n) :: c == '0' || c == '1'
  {
    if n > 0 { UnaryPlain(n - 1); }
  }

  lemma {:induction false} MarksPlain(ns: seq<nat>)
    ensures forall c | c in Marks(ns) :: c == '0' || c == '1'
  {
    if ns != [] {
      UnaryPlain(ns[0]);
      MarksPlain(ns[1..]);
    }
  }

  lemma {:induction false} UnaryOnce(m: nat, n: nat, a: string, b: string)
    requires Unary(m) + a == Unary(n) + b
    ensures m == n && a == b
  {
    var x, y := Unary(m) + a, Unary(n) + b;
    assert x[0] == (if m == 0 then '0' else '1') && y[0] == if n == 0 then '0' else '1';
    if m > 0 {
      assert x[1..] == Unary(m - 1) + a && y[1..] == Unary(n - 1) + b;
      UnaryOnce(m - 1, n - 1, a, b);
    } else {
      assert x[1..] == a && y[1..] == b;
    }
  }

  lemma {:induction false} MarksOnce(ms: seq<nat>, ns: seq<nat>)
    requires Marks(ms) == Marks(ns)
    ensures ms == ns
  {
    if ms != [] && ns != [] {
      UnaryOnce(ms[0], ns[0], Marks(ms[1..]), Marks(ns[1..]));
      MarksOnce(ms[1..], ns[1..]);
      assert ms == [ms[0]] + ms[1..] && ns == [ns[0]] + ns[1..];
    }
    assert ms != [] ==> |Marks(ms)| >= |Unary(ms[0])| > 0;
    assert ns != [] ==> |Marks(ns)| >= |Unary(ns[0])| > 0;
  }

  lemma {:induction false} CodesOnce(r: Record, s: Record)
    requires Codes(r) == Codes(s)
    ensures r == s
  {
    var c, d := Codes(r), Codes(s);
    assert c[0] == |r.run| && c[1] == |r.fingerprint| && c[2] == r.step;
    assert d[0] == |s.run| && d[1] == |s.fingerprint| && d[2] == s.step;
    var m, n := 3 + |r.run|, 3 + |r.run| + |r.fingerprint|;
    assert c[3..m] == CharCodes(r.run) && d[3..m] == CharCodes(s.run);
    assert c[m..n] == CharCodes(r.fingerprint) && d[m..n] == CharCodes(s.fingerprint);
    assert c[n..] == ByteCodes(r.outputId.content) && d[n..] == ByteCodes(s.outputId.content);
    SameChars(r.run, s.run);
    SameChars(r.fingerprint, s.fingerprint);
    SameBytes(r.outputId.content, s.outputId.content);
  }

  lemma {:induction false} SameChars(a: string, b: string)
    requires CharCodes(a) == CharCodes(b)
    ensures a == b
  {
    forall i | 0 <= i < |a| ensures |a| == |b| && a[i] == b[i] { assert CharCodes(a)[i] == CharCodes(b)[i]; }
    assert |CharCodes(a)| == |CharCodes(b)|;
  }

  lemma {:induction false} SameBytes(a: seq<byte>, b: seq<byte>)
    requires ByteCodes(a) == ByteCodes(b)
    ensures a == b
  {
    forall i | 0 <= i < |a| ensures |a| == |b| && a[i] == b[i] { assert ByteCodes(a)[i] == ByteCodes(b)[i]; }
    assert |ByteCodes(a)| == |ByteCodes(b)|;
  }

  lemma {:induction false} BracedOnce(r: Record, s: Record)
    requires Braced(r) == Braced(s)
    ensures r == s
  {
    var x, y := Braced(r), Braced(s);
    assert x[1..|x| - 1] == Marks(Codes(r)) && y[1..|y| - 1] == Marks(Codes(s));
    MarksOnce(Codes(r), Codes(s));
    CodesOnce(r, s);
  }

  /** A brace opens the line and nothing else; a brace ends it and nothing else. */
  lemma {:induction false} Braces(r: Record, i: nat)
    requires i < |Braced(r)|
    ensures Braced(r)[i] == '{' <==> i == 0
    ensures Braced(r)[i] == '}' <==> i == |Braced(r)| - 1
    ensures Braced(r)[i] != '\n'
  {
    MarksPlain(Codes(r));
    var marks := Marks(Codes(r));
    if 0 < i < |Braced(r)| - 1 {
      assert Braced(r)[i] == marks[i - 1];
      assert marks[i - 1] in marks;
    }
  }

  lemma {:induction false} PartIsNoRecord(r: Record, torn: string)
    requires torn < Braced(r)
    ensures Unbraced(torn) == None
  {
    if s: Record :| Braced(s) == torn {
      Braces(s, |torn| - 1);
      Braces(r, |torn| - 1);
    }
  }

  lemma {:induction false} JoinedIsNoRecord(r: Record, torn: string, next: Record)
    requires torn <= Braced(r) && torn != []
    ensures Unbraced(torn + Braced(next)) == None
  {
    var line := torn + Braced(next);
    assert line[|torn|] == '{' by { Braces(next, 0); }
    if s: Record :| Braced(s) == line { Braces(s, |torn|); }
  }

  /** So what is asked of a format can be had. */
  lemma {:induction false} FormatsExist()
    ensures Sane(Unaries()) && Visible(Unaries()) && Unsplittable(Unaries())
  {
    var f := Unaries();
    forall r: Record
      ensures '\n' !in f.write(r) && f.write(r) != [] && f.read(f.write(r)) == Some(r) && !IsBlank(f.write(r))
    {
      forall i | 0 <= i < |Braced(r)| ensures Braced(r)[i] != '\n' { Braces(r, i); }
      var s: Record :| Braced(s) == Braced(r) && Unbraced(Braced(r)) == Some(s);
      BracedOnce(s, r);
      assert Braced(r)[0] == '{' && Braced(r)[0] in Braced(r);
    }
    forall r: Record, torn: string | torn < f.write(r) ensures f.read(torn) == None { PartIsNoRecord(r, torn); }
    forall r: Record, torn: string, next: Record | torn <= f.write(r) && torn != []
      ensures f.read(torn + f.write(next)) == None
    {
      JoinedIsNoRecord(r, torn, next);
    }
  }

  // ---- What a resumed run finds ----

  /** Every record of the run is for this workflow. */
  predicate SameWorkflow(records: seq<Record>, run: string, fingerprint: string) {
    forall r | r in records && r.run == run :: r.fingerprint == fingerprint
  }

  /** The last record of `step` for `run`, if there is one. */
  function Latest(records: seq<Record>, run: string, step: nat): Option<Record> {
    if records == [] then None
    else
      var last := |records| - 1;
      if records[last].run == run && records[last].step == step then Some(records[last])
      else Latest(records[..last], run, step)
  }

  function Lookup(m: map<nat, Record>, step: nat): Option<Record> {
    if step in m then Some(m[step]) else None
  }

  lemma {:induction false} LatestFront(records: seq<Record>, run: string, step: nat)
    requires records != []
    ensures Latest(records, run, step)
         == if Latest(records[1..], run, step).Some? then Latest(records[1..], run, step)
            else if records[0].run == run && records[0].step == step then Some(records[0]) else None
    decreases |records|
  {
    var last := |records| - 1;
    if last > 0 {
      assert records[1..][..last - 1] == records[..last][1..];
      LatestFront(records[..last], run, step);
    } else {
      assert records[..0] == [] && records[1..] == [];
    }
  }

  lemma {:induction false} CollectFinds(records: seq<Record>, run: string, fingerprint: string, sofar: map<nat,
                                        Record>, step: nat)
    ensures Collect(records, run, fingerprint, sofar).Ok? <==> SameWorkflow(records, run, fingerprint)
    ensures Collect(records, run, fingerprint, sofar).Ok? ==>
              Lookup(Collect(records, run, fingerprint, sofar).value, step)
              == if Latest(records, run, step).Some? then Latest(records, run, step) else Lookup(sofar, step)
    decreases |records|
  {
    if records != [] {
      LatestFront(records, run, step);
      assert records == [records[0]] + records[1..];
      if records[0].run != run {
        CollectFinds(records[1..], run, fingerprint, sofar, step);
      } else if records[0].fingerprint != fingerprint {
        assert records[0] in records;
      } else {
        CollectFinds(records[1..], run, fingerprint, sofar[records[0].step := records[0]], step);
      }
    }
  }

  /** Record `i` is the first of the run for another workflow. */
  predicate FirstOther(records: seq<Record>, run: string, fingerprint: string, i: nat) {
    && i < |records| && records[i].run == run && records[i].fingerprint != fingerprint
    && SameWorkflow(records[..i], run, fingerprint)
  }

  /** A refusal names the first other workflow, and this one. */
  lemma {:induction false} RefusalNames(records: seq<Record>, run: string, fingerprint: string, sofar: map<nat, Record>)
    returns (i: nat)
    requires Collect(records, run, fingerprint, sofar).Err?
    ensures FirstOther(records, run, fingerprint, i)
    ensures Collect(records, run, fingerprint, sofar) == Err(Fingerprint(records[i].fingerprint, fingerprint))
    decreases |records|
  {
    var first, rest := records[0], records[1..];
    if first.run == run && first.fingerprint != fingerprint {
      i := 0;
    } else {
      i := RefusalNames(rest, run, fingerprint, if first.run == run then sofar[first.step := first] else sofar);
      assert records[..i + 1] == [first] + rest[..i];
      i := i + 1;
    }
  }

  /** A resumed run is refused exactly when the journal has the run under another workflow,
      naming the first; otherwise it finds, for each step, the last thing recorded. */
  lemma {:induction false} CompletedIsLatest(records: seq<Record>, run: string, fingerprint: string)
    ensures CompletedIn(records, run, fingerprint).Ok? <==> SameWorkflow(records, run, fingerprint)
    ensures CompletedIn(records, run, fingerprint).Ok? ==>
              forall step: nat ::
                Lookup(CompletedIn(records, run, fingerprint).value, step) == Latest(records, run, step)
    ensures CompletedIn(records, run, fingerprint).Err? ==>
              exists i: nat :: FirstOther(records, run, fingerprint, i)
                && CompletedIn(records, run, fingerprint) == Err(Fingerprint(records[i].fingerprint, fingerprint))
  {
    CollectFinds(records, run, fingerprint, map[], 0);
    if CompletedIn(records, run, fingerprint).Err? {
      var i := RefusalNames(records, run, fingerprint, map[]);
    }
    if CompletedIn(records, run, fingerprint).Ok? {
      var m := CompletedIn(records, run, fingerprint).value;
      forall step: nat ensures Lookup(m, step) == Latest(records, run, step) {
        CollectFinds(records, run, fingerprint, map[], step);
      }
    }
  }
}
