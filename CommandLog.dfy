/** The record `next_command` logs for each generated command, and `log_command_to_file`'s
    effect on the two log files: one JSON object appended to the JSONL file, and one row
    appended to the CSV file, preceded by the header row only when that file did not yet exist.
    The files are modelled by their contents: the JSONL file as the records it holds, the CSV
    file as whether it exists and the rows it holds, each row a list of fields before quoting. */
module CommandLog {
  import opened Wrappers
  import opened Text
  import opened Config
  import opened Clock
  import opened Prompt

  /** The `command_data` dictionary. */
  datatype CommandRecord = CommandRecord(
    timestamp: string,
    npcName: string,
    npcRole: string,
    command: string,
    workingDirectory: string,
    delayAfter: nat,
    llmModel: string,
    sessionId: string)

  /** What the record names an NPC without a name or role. */
  const Unknown := "Unknown"

  /** The `command_data` built for a command generated at time `at`. */
  function BuildRecord(p: Profile, command: string, at: Timestamp, client: bool): CommandRecord {
    CommandRecord(
      IsoFormat(at),
      p.name.GetOr(Unknown),
      p.role.GetOr(Unknown),
      command,
      WorkspaceDir,
      DelayAfter,
      if client then ModelName else MockModel,
      SessionId(at))
  }

  /** The record names the model `mock` and never `gpt-4o-mini` exactly when there is no client;
      its session identifier is the date of its timestamp without the dashes, read back as the
      timestamp's year, month and day; it carries the command and the profile's name and role,
      or `Unknown` for a missing one. */
  lemma BuildRecordSpec(p: Profile, command: string, at: Timestamp, client: bool)
    ensures var r := BuildRecord(p, command, at, client);
      && (r.llmModel == MockModel <==> !client)
      && (r.llmModel == ModelName <==> client)
      && r.sessionId == r.timestamp[..4] + r.timestamp[5..7] + r.timestamp[8..10]
      && Value(r.sessionId[..4]) == at.year
      && Value(r.sessionId[4..6]) == at.month
      && Value(r.sessionId[6..]) == at.day
      && r.command == command
      && r.npcName == (if p.name.Some? then p.name.value else Unknown)
      && r.npcRole == (if p.role.Some? then p.role.value else Unknown)
      && r.workingDirectory == WorkspaceDir && r.delayAfter == 15
  {
    assert |ModelName| != |MockModel|;
    IsoFormatAgreesWithShortForms(at);
    SessionIdRoundTrip(at);
  }

  // ---------------------------------------------------------------------------
  // CSV rows
  // ---------------------------------------------------------------------------

  /** The `fieldnames` of the CSV writer, in column order. */
  const Header: seq<string> := ["timestamp", "npc_name", "npc_role", "command",
                                "working_directory", "delay_after", "llm_model", "session_id"]

  /** The record as the dictionary `command_data`: the text the CSV writer prints for `key`,
      or `None` for a key the dictionary does not have. The delay is printed in decimal. */
  function Field(rec: CommandRecord, key: string): Option<string> {
    if key == "timestamp" then Some(rec.timestamp)
    else if key == "npc_name" then Some(rec.npcName)
    else if key == "npc_role" then Some(rec.npcRole)
    else if key == "command" then Some(rec.command)
    else if key == "working_directory" then Some(rec.workingDirectory)
    else if key == "delay_after" then Some(Decimal(rec.delayAfter))
    else if key == "llm_model" then Some(rec.llmModel)
    else if key == "session_id" then Some(rec.sessionId)
    else None
  }

  /** The row `writer.writerow(command_data)` appends, one field per column. */
  function Row(rec: CommandRecord): seq<string> {
    [rec.timestamp, rec.npcName, rec.npcRole, rec.command,
     rec.workingDirectory, Decimal(rec.delayAfter), rec.llmModel, rec.sessionId]
  }

  /** The row has one field per header column, each the dictionary's value for that column's
      name; the dictionary has exactly the header's keys, so nothing is dropped or extra; and
      the `delay_after` column reads back as the record's delay. */
  lemma RowFollowsHeader(rec: CommandRecord)
    ensures |Row(rec)| == |Header|
    ensures forall i :: 0 <= i < |Header| ==> Field(rec, Header[i]) == Some(Row(rec)[i])
    ensures forall key :: Field(rec, key).Some? <==> key in Header
    ensures AllDigits(Row(rec)[5]) && Value(Row(rec)[5]) == rec.delayAfter
  {
    ValueOfDecimal(rec.delayAfter);
  }

  /** No data row is the header row: its `delay_after` column is all digits, while the header's
      is the word `delay_after`. */
  lemma RowIsNotHeader(rec: CommandRecord)
    ensures Row(rec) != Header
  {
    assert IsDigit(Row(rec)[5][0]);
    assert Header[5][0] == 'd';
  }

  // ---------------------------------------------------------------------------
  // The two log files
  // ---------------------------------------------------------------------------

  /** The CSV file: whether it exists, and its rows (the header included). */
  datatype CsvFile = CsvFile(present: bool, rows: seq<seq<string>>)
  {
    /** A file that does not exist holds no rows. */
    predicate WellFormed() {
      !present ==> rows == []
    }
  }

  /** The JSONL file's records and the CSV file. */
  datatype Logs = Logs(jsonl: seq<CommandRecord>, csv: CsvFile)

  /** Where `log_command_to_file` fails, if it does: opening or writing the JSONL file, or
      opening the CSV file. Every failure is caught and logged; what was written stays. */
  datatype LogFault = NoFault | JsonlFault | CsvFault

  /** `log_command_to_file(rec)`. */
  function Logged(logs: Logs, rec: CommandRecord, fault: LogFault): Logs {
    if fault == JsonlFault then logs
    else
      var jsonl := logs.jsonl + [rec];
      if fault == CsvFault then Logs(jsonl, logs.csv)
      else Logs(jsonl, Appended(logs.csv, Row(rec)))
  }

  /** The CSV part of a call that does not fail: the header when the file did not exist, then
      the row. */
  function Appended(csv: CsvFile, row: seq<string>): CsvFile {
    CsvFile(true, csv.rows + (if csv.present then [] else [Header]) + [row])
  }

  /** Appending a run of rows, oldest first. */
  function AppendedAll(csv: CsvFile, rows: seq<seq<string>>): CsvFile
    decreases |rows|
  {
    if rows == [] then csv else AppendedAll(Appended(csv, rows[0]), rows[1..])
  }

  /** One call appends the record to the JSONL file unless that write fails; it appends one row
      to the CSV file, after the header exactly when the file did not exist, unless a write
      fails; the CSV file exists afterwards whenever its write succeeds. */
  lemma LoggedSpec(logs: Logs, rec: CommandRecord, fault: LogFault)
    ensures var r := Logged(logs, rec, fault);
      && (fault == JsonlFault ==> r == logs)
      && (fault != JsonlFault ==> r.jsonl == logs.jsonl + [rec])
      && (fault == CsvFault ==> r.csv == logs.csv)
      && (fault == NoFault ==>
            && r.csv.present
            && (logs.csv.present ==> r.csv.rows == logs.csv.rows + [Row(rec)])
            && (!logs.csv.present ==> r.csv.rows == logs.csv.rows + [Header, Row(rec)]))
  {
  }

  /** Whatever fails, a call keeps the CSV file well formed; and when it creates the file, the
      header is the file's first row. */
  lemma LoggedKeepsWellFormed(logs: Logs, rec: CommandRecord, fault: LogFault)
    requires logs.csv.WellFormed()
    ensures Logged(logs, rec, fault).csv.WellFormed()
    ensures !logs.csv.present && fault == NoFault ==>
              Logged(logs, rec, fault).csv.rows == [Header, Row(rec)]
  {
  }

  /** Several calls in a row, none of them failing. */
  function LoggedAll(logs: Logs, recs: seq<CommandRecord>): Logs
    decreases |recs|
  {
    if recs == [] then logs else LoggedAll(Logged(logs, recs[0], NoFault), recs[1..])
  }

  /** The data rows of a run of records. */
  function Rows(recs: seq<CommandRecord>): (rows: seq<seq<string>>)
    ensures |rows| == |recs|
    ensures forall k :: 0 <= k < |recs| ==> rows[k] == Row(recs[k])
  {
    if recs == [] then [] else [Row(recs[0])] + Rows(recs[1..])
  }

  /** After a run of calls the JSONL file holds all their records in order, and the CSV file
      holds one row per record in order, preceded by a header exactly when the file did not
      exist before and at least one call was made. */
  lemma LoggedAllSpec(logs: Logs, recs: seq<CommandRecord>)
    ensures var r := LoggedAll(logs, recs);
      && r.jsonl == logs.jsonl + recs
      && r.csv.present == (logs.csv.present || recs != [])
      && r.csv.rows == logs.csv.rows
                       + (if !logs.csv.present && recs != [] then [Header] else [])
                       + Rows(recs)
  {
    LoggedAllJsonl(logs, recs);
    LoggedAllCsv(logs, recs);
  }

  lemma {:induction false} LoggedAllJsonl(logs: Logs, recs: seq<CommandRecord>)
    ensures LoggedAll(logs, recs).jsonl == logs.jsonl + recs
    decreases |recs|
  {
    if recs == [] {
      assert logs.jsonl + recs == logs.jsonl;
    } else {
      var next := Logged(logs, recs[0], NoFault);
      LoggedAllJsonl(next, recs[1..]);
      AppendHeadThenTail(logs.jsonl, recs);
    }
  }

  lemma {:induction false} LoggedAllCsv(logs: Logs, recs: seq<CommandRecord>)
    ensures var r := LoggedAll(logs, recs);
      && r.csv.present == (logs.csv.present || recs != [])
      && r.csv.rows == logs.csv.rows
                       + (if !logs.csv.present && recs != [] then [Header] else [])
                       + Rows(recs)
  {
    LoggedAllAppends(logs, recs);
    AppendedAllSpec(logs.csv, Rows(recs));
  }

  lemma {:induction false} LoggedAllAppends(logs: Logs, recs: seq<CommandRecord>)
    ensures LoggedAll(logs, recs).csv == AppendedAll(logs.csv, Rows(recs))
    decreases |recs|
  {
    if recs != [] {
      LoggedAllAppends(Logged(logs, recs[0], NoFault), recs[1..]);
      assert Rows(recs)[1..] == Rows(recs[1..]);
    }
  }

  lemma {:induction false} AppendedAllSpec(csv: CsvFile, rows: seq<seq<string>>)
    ensures AppendedAll(csv, rows).present == (csv.present || rows != [])
    ensures AppendedAll(csv, rows).rows
         == csv.rows + (if !csv.present && rows != [] then [Header] else []) + rows
    decreases |rows|
  {
    if rows == [] {
      assert csv.rows + [] + rows == csv.rows;
    } else {
      var header: seq<seq<string>> := if csv.present then [] else [Header];
      AppendedAllSpec(Appended(csv, rows[0]), rows[1..]);
      AppendHeadThenTail(csv.rows + header, rows);
    }
  }

  lemma AppendHeadThenTail<T>(a: seq<T>, s: seq<T>)
    requires s != []
    ensures a + [s[0]] + s[1..] == a + s
  {
  }

  /** How many rows equal the header row. */
  function HeaderCount(rows: seq<seq<string>>): nat {
    if rows == [] then 0 else (if rows[0] == Header then 1 else 0) + HeaderCount(rows[1..])
  }

  lemma {:induction false} HeaderCountAppend(a: seq<seq<string>>, b: seq<seq<string>>)
    ensures HeaderCount(a + b) == HeaderCount(a) + HeaderCount(b)
    decreases |a|
  {
    if a == [] {
      assert a + b == b;
    } else {
      HeaderCountAppend(a[1..], b);
      assert (a + b)[1..] == a[1..] + b;
    }
  }

  lemma {:induction false} NoHeaderAmongRows(recs: seq<CommandRecord>)
    requires forall k :: 0 <= k < |recs| ==> Row(recs[k]) != Header
    ensures HeaderCount(Rows(recs)) == 0
    decreases |recs|
  {
    if recs != [] {
      NoHeaderAmongRows(recs[1..]);
      assert Rows(recs)[1..] == Rows(recs[1..]);
    }
  }

  /** Starting from no CSV file, N >= 1 calls leave exactly one header row, first, followed by
      the N data rows in order; the JSONL file gains the N records. */
  lemma FreshCsvHasOneHeader(jsonl: seq<CommandRecord>, recs: seq<CommandRecord>)
    requires recs != []
    ensures var r := LoggedAll(Logs(jsonl, CsvFile(false, [])), recs);
      && r.csv.present
      && r.csv.rows == [Header] + Rows(recs)
      && |r.csv.rows| == |recs| + 1
      && HeaderCount(r.csv.rows) == 1
      && r.jsonl == jsonl + recs
  {
    LoggedAllSpec(Logs(jsonl, CsvFile(false, [])), recs);
    forall k | 0 <= k < |recs| ensures Row(recs[k]) != Header {
      RowIsNotHeader(recs[k]);
    }
    NoHeaderAmongRows(recs);
    HeaderCountAppend([Header], Rows(recs));
  }
}
