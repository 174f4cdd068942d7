/** Reading package indexes: parsePackages of internal/apt/handler.go (control files, section 5.1 of
    the Debian Policy Manual) and parseIndex of internal/apk/handler.go, from a list of lines. */
module Stanzas {
  import opened Records
  import opened Sequences
  import opened Text

  datatype Dialect = Packages | ApkIndex

  datatype Field = Field(name: string, value: string)

  // ---- Trimming ----

  /** unicode.IsSpace. */
  predicate IsSpace(c: char) {
    || c == ' ' || '\t' <= c <= '\r' || c == '\U{85}' || c == '\U{A0}' || c == '\U{1680}'
    || '\U{2000}' <= c <= '\U{200A}' || c == '\U{2028}' || c == '\U{2029}' || c == '\U{202F}'
    || c == '\U{205F}' || c == '\U{3000}'
  }

  /** The code points with the property White_Space. */
  lemma SpaceCodes(c: char)
    ensures IsSpace(c) <==>
              c as int in {9, 10, 11, 12, 13, 32, 0x85, 0xA0, 0x1680, 0x2000, 0x2001, 0x2002, 0x2003, 0x2004, 0x2005, 0x2006,
                           0x2007, 0x2008, 0x2009, 0x200A, 0x2028, 0x2029, 0x202F, 0x205F, 0x3000}
  {}

  predicate Trimmed(s: string) { s == "" || (!IsSpace(s[0]) && !IsSpace(s[|s| - 1])) }

  /** strings.TrimSpace. */
  function TrimSpace(s: string): (t: string)
    ensures Trimmed(t)
    ensures Trimmed(s) ==> t == s
  {
    if s == "" then s
    else if IsSpace(s[0]) then TrimSpace(s[1..])
    else if IsSpace(s[|s| - 1]) then TrimSpace(s[..|s| - 1])
    else s
  }

  ghost predicate AllSpace(s: string) { forall k :: 0 <= k < |s| ==> IsSpace(s[k]) }

  /** White space around a trimmed string is what trimming removes, and all it removes. */
  lemma {:induction false} TrimPadding(before: string, s: string, after: string)
    requires AllSpace(before) && Trimmed(s) && AllSpace(after)
    ensures TrimSpace(before + s + after) == s
    decreases |before| + |after|
  {
    var x := before + s + after;
    if before != "" {
      assert x[1..] == before[1..] + s + after;
      TrimPadding(before[1..], s, after);
    } else if after != "" {
      if s == "" {
        assert x == after && x[1..] == "" + s + after[1..];
        TrimPadding("", s, after[1..]);
      } else {
        assert x[..|x| - 1] == "" + s + after[..|after| - 1];
        TrimPadding("", s, after[..|after| - 1]);
      }
    } else {
      assert x == s;
    }
  }

  // ---- What one line says ----

  /** The field a line sets, if any: split at the first colon. In the Packages dialect the value is
      trimmed and a line that starts with a blank continues the one before. */
  function FieldOf(d: Dialect, line: string): Option<Field> {
    var colon := IndexOf(line, ':');
    if line == "" || (d.Packages? && (line[0] == ' ' || line[0] == '\t')) || colon == |line| then None
    else Some(Field(line[..colon], if d.Packages? then TrimSpace(line[colon + 1..]) else line[colon + 1..]))
  }

  function Lookup(fields: map<string, string>, name: string): string {
    if name in fields then fields[name] else ""
  }

  /** The record of a stanza whose field `name` has the value `of(name)`. */
  function RecordOf(d: Dialect, of: string -> string): seq<Record> {
    match d
    case Packages =>
      if of("Package") != "" && of("Version") != "" && of("Filename") != ""
      then [Record(of("Filename"), of("Package"), of("Version"), of("Architecture"))] else []
    case ApkIndex =>
      if of("P") != "" && of("V") != ""
      then [Record(of("P") + "-" + of("V") + ".apk", of("P"), of("V"), of("A"))] else []
  }

  function Flush(d: Dialect, fields: map<string, string>): seq<Record> {
    RecordOf(d, name => Lookup(fields, name))
  }

  function Set(fields: map<string, string>, field: Option<Field>): map<string, string> {
    if field == None then fields else fields[field.value.name := field.value.value]
  }

  /** What is still to come from the remaining lines, given the fields of the current stanza. */
  function Continue(d: Dialect, lines: seq<string>, fields: map<string, string>): seq<Record> {
    if lines == [] then Flush(d, fields)
    else if lines[0] == "" then Flush(d, fields) + Continue(d, lines[1..], map[])
    else Continue(d, lines[1..], Set(fields, FieldOf(d, lines[0])))
  }

  function Parsed(d: Dialect, lines: seq<string>): seq<Record> { Continue(d, lines, map[]) }

  /** parsePackages and parseIndex. A scanner error after the lines read discards everything. */
  method ParseIndex(d: Dialect, lines: seq<string>, scanError: bool) returns (records: Option<seq<Record>>)
    ensures records == if scanError then None else Some(Parsed(d, lines))
  {
    hide Flush, FieldOf;
    var found: seq<Record> := [];
    var fields: map<string, string> := map[];
    for n := 0 to |lines|
      invariant found + Continue(d, lines[n..], fields) == Parsed(d, lines)
    {
      assert lines[n..][1..] == lines[n + 1..];
      var line := lines[n];
      if line == "" {
        found := found + Flush(d, fields);
        fields := map[];
      } else {
        fields := Set(fields, FieldOf(d, line));
      }
    }
    if scanError {
      return None;
    }
    assert lines[|lines|..] == [];
    return Some(found + Flush(d, fields));
  }

  // ---- The meaning of an index, without the scan ----

  /** The value of the last line of the stanza that sets the field; "" when none does. */
  function LastValue(d: Dialect, stanza: seq<string>, name: string): string {
    if stanza == [] then "" else
      var f := FieldOf(d, stanza[|stanza| - 1]);
      if f != None && f.value.name == name then f.value.value else LastValue(d, stanza[..|stanza| - 1], name)
  }

  function StanzaRecord(d: Dialect, stanza: seq<string>): seq<Record> {
    RecordOf(d, name => LastValue(d, stanza, name))
  }

  /** The stanzas of an index joined by one blank line each. */
  function Join(stanzas: seq<seq<string>>): seq<string>
    requires stanzas != []
  {
    if |stanzas| == 1 then stanzas[0] else stanzas[0] + [""] + Join(stanzas[1..])
  }

  function StanzaRecords(d: Dialect, stanzas: seq<seq<string>>): seq<Record> {
    if stanzas == [] then [] else StanzaRecord(d, stanzas[0]) + StanzaRecords(d, stanzas[1..])
  }

  ghost predicate IsStanza(stanza: seq<string>) { "" !in stanza }

  lemma {:induction false} ContinueBlank(d: Dialect, a: seq<string>, b: seq<string>, fields: map<string, string>)
    ensures Continue(d, a + [""] + b, fields) == Continue(d, a, fields) + Parsed(d, b)
  {
    hide Flush, FieldOf;
    var x := a + [""] + b;
    if a == [] {
      assert x == [""] + b && x[1..] == b;
    } else {
      assert x[0] == a[0] && x[1..] == a[1..] + [""] + b;
      if a[0] == "" {
        ContinueBlank(d, a[1..], b, map[]);
      } else {
        ContinueBlank(d, a[1..], b, Set(fields, FieldOf(d, a[0])));
      }
    }
  }

  /** Parsing two indexes joined by a blank line is parsing each. */
  lemma ParseConcatenation(d: Dialect, a: seq<string>, b: seq<string>)
    ensures Parsed(d, a + [""] + b) == Parsed(d, a) + Parsed(d, b)
  {
    ContinueBlank(d, a, b, map[]);
  }

  /** The fields map after the lines of one stanza. */
  function Fields(d: Dialect, stanza: seq<string>): map<string, string> {
    if stanza == [] then map[]
    else Set(Fields(d, stanza[..|stanza| - 1]), FieldOf(d, stanza[|stanza| - 1]))
  }

  lemma {:induction false} FieldsAreLastValues(d: Dialect, stanza: seq<string>, name: string)
    ensures Lookup(Fields(d, stanza), name) == LastValue(d, stanza, name)
  {
    hide FieldOf;
    if stanza != [] {
      FieldsAreLastValues(d, stanza[..|stanza| - 1], name);
    }
  }

  lemma {:induction false} ContinueStanza(d: Dialect, done: seq<string>, rest: seq<string>)
    requires IsStanza(rest)
    ensures Continue(d, rest, Fields(d, done)) == Flush(d, Fields(d, done + rest))
    decreases |rest|
  {
    hide FieldOf, Flush;
    if rest == [] {
      assert done + rest == done;
    } else {
      var done' := done + [rest[0]];
      assert done'[..|done|] == done;
      assert done' + rest[1..] == done + rest;
      ContinueStanza(d, done', rest[1..]);
    }
  }

  lemma NoFields(d: Dialect)
    ensures Fields(d, []) == map[]
  {}

  lemma ParseStanza(d: Dialect, stanza: seq<string>)
    requires IsStanza(stanza)
    ensures Parsed(d, stanza) == StanzaRecord(d, stanza)
  {
    hide Continue, Fields, LastValue;
    ContinueStanza(d, [], stanza);
    assert Fields(d, []) == map[] by { NoFields(d); }
    assert [] + stanza == stanza;
    match d
    case Packages =>
      FieldsAreLastValues(d, stanza, "Package");
      FieldsAreLastValues(d, stanza, "Version");
      FieldsAreLastValues(d, stanza, "Filename");
      FieldsAreLastValues(d, stanza, "Architecture");
    case ApkIndex =>
      FieldsAreLastValues(d, stanza, "P");
      FieldsAreLastValues(d, stanza, "V");
      FieldsAreLastValues(d, stanza, "A");
  }

  /** The records of an index are the records of its stanzas, each read by its last values. */
  lemma {:induction false} ParseIsStanzaRecords(d: Dialect, stanzas: seq<seq<string>>)
    requires stanzas != [] && forall s :: s in stanzas ==> IsStanza(s)
    ensures Parsed(d, Join(stanzas)) == StanzaRecords(d, stanzas)
  {
    hide StanzaRecord;
    ParseStanza(d, stanzas[0]);
    if |stanzas| == 1 {
      assert stanzas[1..] == [];
    } else {
      ParseIsStanzaRecords(d, stanzas[1..]);
      ParseConcatenation(d, stanzas[0], Join(stanzas[1..]));
    }
  }

  /** A line without a colon, or in the Packages dialect one that starts with a blank, says nothing. */
  lemma {:induction false} ContinueIgnored(d: Dialect, a: seq<string>, line: string, b: seq<string>, fields: map<string, string>)
    requires line != "" && (':' !in line || (d.Packages? && (line[0] == ' ' || line[0] == '\t')))
    ensures Continue(d, a + [line] + b, fields) == Continue(d, a + b, fields)
    decreases |a|
  {
    hide Flush;
    var x := a + [line] + b;
    if a == [] {
      assert x == [line] + b && x[1..] == b && a + b == b;
    } else {
      hide FieldOf;
      assert x[1..] == a[1..] + [line] + b && (a + b)[1..] == a[1..] + b;
      ContinueIgnored(d, a[1..], line, b, if a[0] == "" then map[] else Set(fields, FieldOf(d, a[0])));
    }
  }

  lemma LineIgnored(d: Dialect, a: seq<string>, line: string, b: seq<string>)
    requires line != "" && (':' !in line || (d.Packages? && (line[0] == ' ' || line[0] == '\t')))
    ensures Parsed(d, a + [line] + b) == Parsed(d, a + b)
  {
    ContinueIgnored(d, a, line, b, map[]);
  }

  /** A stanza gives a record exactly when every required field has a value. */
  lemma RecordIff(d: Dialect, stanza: seq<string>)
    requires IsStanza(stanza)
    ensures d.Packages? ==>
              (Parsed(d, stanza) != [] <==>
                 LastValue(d, stanza, "Package") != "" && LastValue(d, stanza, "Version") != "" && LastValue(d, stanza, "Filename") != "")
    ensures d.ApkIndex? ==>
              (Parsed(d, stanza) != [] <==> LastValue(d, stanza, "P") != "" && LastValue(d, stanza, "V") != "")
  {
    hide Parsed, LastValue;
    ParseStanza(d, stanza);
  }

  // ---- Printed records come back ----

  /** The fields a record has in a dialect, by name. */
  function Named(d: Dialect, r: Record): map<string, string> {
    match d
    case Packages =>
      map["Package" := r.package, "Version" := r.version, "Filename" := r.artifactPath, "Architecture" := r.architecture]
    case ApkIndex =>
      map["P" := r.package, "V" := r.version, "A" := r.architecture]
  }

  /** What an index can express: the required fields are there, and in the Packages dialect every
      value is trimmed. An APKINDEX record has the one path that its name and version give. */
  predicate WellFormed(d: Dialect, r: Record) {
    && r.package != "" && r.version != ""
    && match d
       case Packages =>
         r.artifactPath != "" && Trimmed(r.package) && Trimmed(r.version) && Trimmed(r.artifactPath) && Trimmed(r.architecture)
       case ApkIndex => r.artifactPath == r.package + "-" + r.version + ".apk"
  }

  /** The line that sets a field, as the indexes write it. */
  function FieldLine(d: Dialect, name: string, value: string): string {
    if d.Packages? then name + ": " + value else name + ":" + value
  }

  /** `stanza` prints `r`: one line or more for each of its fields (a field left empty may have
      none), in any order, and between them any lines that do not set those fields. */
  ghost predicate Prints(d: Dialect, r: Record, stanza: seq<string>) {
    && IsStanza(stanza)
    && (forall name :: name in Named(d, r) && Named(d, r)[name] != "" ==> FieldLine(d, name, Named(d, r)[name]) in stanza)
    && (forall line :: line in stanza ==> IsFieldLine(d, r, line) || IsNoise(d, r, line))
  }

  ghost predicate IsFieldLine(d: Dialect, r: Record, line: string) {
    exists name :: name in Named(d, r) && line == FieldLine(d, name, Named(d, r)[name])
  }

  predicate IsNoise(d: Dialect, r: Record, line: string) {
    FieldOf(d, line) == None || FieldOf(d, line).value.name !in Named(d, r)
  }

  lemma FieldLineParses(d: Dialect, name: string, value: string)
    requires name != "" && ':' !in name && name[0] != ' ' && name[0] != '\t' && (d.Packages? ==> Trimmed(value))
    ensures FieldOf(d, FieldLine(d, name, value)) == Some(Field(name, value))
  {
    hide IndexOf, TrimSpace;
    var line := FieldLine(d, name, value);
    IndexOfUnique(line, ':', |name|);
    assert line[..|name|] == name;
    if d.Packages? {
      assert line[|name| + 1..] == " " + value + "";
      TrimPadding(" ", value, "");
    } else {
      assert line[|name| + 1..] == value;
    }
  }

  lemma FieldLineSets(d: Dialect, r: Record, name: string)
    requires WellFormed(d, r) && name in Named(d, r)
    ensures FieldOf(d, FieldLine(d, name, Named(d, r)[name])) == Some(Field(name, Named(d, r)[name]))
  {
    hide FieldOf, FieldLine;
    FieldLineParses(d, name, Named(d, r)[name]);
  }

  /** A stanza that prints a record has the record's fields as its last values. */
  lemma {:induction false} PrintedLastValue(d: Dialect, r: Record, stanza: seq<string>, name: string)
    requires WellFormed(d, r) && name in Named(d, r)
    requires forall line :: line in stanza ==> IsFieldLine(d, r, line) || IsNoise(d, r, line)
    ensures LastValue(d, stanza, name)
         == if FieldLine(d, name, Named(d, r)[name]) in stanza then Named(d, r)[name] else ""
  {
    hide FieldOf, FieldLine, Named;
    if stanza != [] {
      var line, init := stanza[|stanza| - 1], stanza[..|stanza| - 1];
      assert stanza == init + [line];
      PrintedLastValue(d, r, init, name);
      FieldLineSets(d, r, name);
      if IsFieldLine(d, r, line) {
        var other :| other in Named(d, r) && line == FieldLine(d, other, Named(d, r)[other]);
        FieldLineSets(d, r, other);
      }
    }
  }

  lemma PrintedStanza(d: Dialect, r: Record, stanza: seq<string>)
    requires WellFormed(d, r) && Prints(d, r, stanza)
    ensures StanzaRecord(d, stanza) == [r]
  {
    hide LastValue, FieldLine, FieldOf;
    match d
    case Packages =>
      PrintedLastValue(d, r, stanza, "Package");
      PrintedLastValue(d, r, stanza, "Version");
      PrintedLastValue(d, r, stanza, "Filename");
      PrintedLastValue(d, r, stanza, "Architecture");
    case ApkIndex =>
      PrintedLastValue(d, r, stanza, "P");
      PrintedLastValue(d, r, stanza, "V");
      PrintedLastValue(d, r, stanza, "A");
  }

  /** Parsing what prints a list of records, with whatever other lines in between, returns it. */
  lemma {:induction false} ParsePrinted(d: Dialect, records: seq<Record>, stanzas: seq<seq<string>>)
    requires |stanzas| == |records| > 0
    requires forall k :: 0 <= k < |records| ==> WellFormed(d, records[k]) && Prints(d, records[k], stanzas[k])
    ensures Parsed(d, Join(stanzas)) == records
  {
    hide StanzaRecord;
    assert forall s :: s in stanzas ==> IsStanza(s);
    ParseIsStanzaRecords(d, stanzas);
    PrintedStanzas(d, records, stanzas);
  }

  lemma {:induction false} PrintedStanzas(d: Dialect, records: seq<Record>, stanzas: seq<seq<string>>)
    requires |stanzas| == |records|
    requires forall k :: 0 <= k < |records| ==> WellFormed(d, records[k]) && Prints(d, records[k], stanzas[k])
    ensures StanzaRecords(d, stanzas) == records
  {
    hide StanzaRecord, WellFormed, Prints;
    if records != [] {
      PrintedStanza(d, records[0], stanzas[0]);
      PrintedStanzas(d, records[1..], stanzas[1..]);
      assert [records[0]] + records[1..] == records;
    }
  }

  /** The plain printing of a record, without any other line. */
  function Print(d: Dialect, r: Record): seq<string> {
    match d
    case Packages =>
      [FieldLine(d, "Package", r.package), FieldLine(d, "Version", r.version),
       FieldLine(d, "Architecture", r.architecture), FieldLine(d, "Filename", r.artifactPath)]
    case ApkIndex =>
      [FieldLine(d, "P", r.package), FieldLine(d, "V", r.version), FieldLine(d, "A", r.architecture)]
  }

  lemma PrintPackage(r: Record)
    ensures Prints(Packages, r, Print(Packages, r))
  {
    hide FieldOf;
    var lines, named := Print(Packages, r), Named(Packages, r);
    assert lines[0] == FieldLine(Packages, "Package", named["Package"]);
    assert lines[1] == FieldLine(Packages, "Version", named["Version"]);
    assert lines[2] == FieldLine(Packages, "Architecture", named["Architecture"]);
    assert lines[3] == FieldLine(Packages, "Filename", named["Filename"]);
  }

  lemma PrintApk(r: Record)
    ensures Prints(ApkIndex, r, Print(ApkIndex, r))
  {
    hide FieldOf;
    var lines, named := Print(ApkIndex, r), Named(ApkIndex, r);
    assert lines[0] == FieldLine(ApkIndex, "P", named["P"]);
    assert lines[1] == FieldLine(ApkIndex, "V", named["V"]);
    assert lines[2] == FieldLine(ApkIndex, "A", named["A"]);
  }

  lemma PrintPrints(d: Dialect, r: Record)
    ensures Prints(d, r, Print(d, r))
  {
    hide Prints, Print;
    match d
    case Packages => PrintPackage(r);
    case ApkIndex => PrintApk(r);
  }
}
