/** The decision service's module-level state, updated in place by its handlers: the completion
    client (present exactly when an API key is configured), the loaded NPC profile, the action
    history and the two log files. */
module Service {
  import opened Wrappers
  import opened Text
  import opened Config
  import opened Clock
  import opened Prompt
  import opened Command
  import opened History
  import opened CommandLog

  /** What reading the profile file gives: no file, a file that cannot be opened or parsed, or
      a parsed JSON object. */
  datatype ProfileSource = Missing | Unreadable | Parsed(profile: Profile)

  class DecisionService {
    /** Whether a completion client was created at start-up. */
    const client: bool
    var profile: Profile
    var history: seq<string>
    var logs: Logs

    /** The history never holds more than `MAX_HISTORY` entries, and a CSV file that does not
        exist holds no rows. */
    ghost predicate Valid()
      reads this
    {
      Bounded(history) && logs.csv.WellFormed()
    }

    /** Start-up: a client exactly when the API key is non-empty, the empty profile replaced by
        the profile file's contents if it can be read, an empty history, and the log files as
        they are on disk. */
    constructor(apiKey: string, source: ProfileSource, initialLogs: Logs)
      requires initialLogs.csv.WellFormed()
      ensures Valid()
      ensures client <==> apiKey != ""
      ensures source.Parsed? ==> profile == source.profile
      ensures !source.Parsed? ==> profile == EmptyProfile
      ensures history == []
      ensures logs == initialLogs
    {
      client := apiKey != "";
      profile := EmptyProfile;
      history := [];
      logs := initialLogs;
      new;
      LoadProfile(source);
    }

    /** `load_npc_profile()`: a successful read replaces the profile; a missing or unreadable
        file leaves the previous profile untouched. Nothing else changes. */
    method LoadProfile(source: ProfileSource)
      modifies this`profile
      ensures source.Parsed? ==> profile == source.profile
      ensures !source.Parsed? ==> profile == old(profile)
    {
      match source {
        case Missing =>
        case Unreadable =>
        case Parsed(p) =>
          profile := p;
      }
    }

    /** The history update of `next_command`: a non-empty `last_command` is appended with the
        time of day, and the oldest entry is popped if the history has grown past
        `MAX_HISTORY`. */
    method RecordLastCommand(lastCommand: string, at: Timestamp)
      requires Valid()
      modifies this`history
      ensures Valid()
      ensures history == Record(old(history), lastCommand, at)
      ensures lastCommand == "" ==> history == old(history)
      ensures lastCommand != "" ==>
        && history == Last(old(history) + [Entry(HourMinute(at), lastCommand)], MaxHistory)
        && history[|history| - 1] == Entry(HourMinute(at), lastCommand)
    {
      if lastCommand != "" {
        history := history + [Entry(HourMinute(at), lastCommand)];
        if |history| > MaxHistory {
          history := history[1..];
        }
      }
      RecordSpec(old(history), lastCommand, at);
    }

    /** `log_command_to_file(rec)`, failing at `fault` if anywhere. */
    method LogCommand(rec: CommandRecord, fault: LogFault)
      requires Valid()
      modifies this`logs
      ensures Valid()
      ensures logs == Logged(old(logs), rec, fault)
    {
      if fault != JsonlFault {
        logs := logs.(jsonl := logs.jsonl + [rec]);
        if fault != CsvFault {
          logs := logs.(csv := Appended(logs.csv, Row(rec)));
        }
      }
      LoggedKeepsWellFormed(old(logs), rec, fault);
    }

    /** One `/next-command` request: record the reported command, generate the next one, and
        log it with the time it was generated. `lastCommand` is empty on a request that reports
        none; `pick` is the mock draw and `complete` the completion service. The command
        returned starts in the workspace, and the record logged carries it. */
    method NextCommand(lastCommand: string, requestTime: Timestamp, commandTime: Timestamp,
                       pick: MockIndex, complete: CompletionRequest -> Completion, fault: LogFault)
      returns (command: string)
      requires Valid()
      modifies this`history, this`logs
      ensures Valid()
      ensures history == Record(old(history), lastCommand, requestTime)
      ensures command == GenerateCommand(client, profile, history, pick, complete)
      ensures StartsWith(command, CdWorkspace)
      ensures logs == Logged(old(logs), BuildRecord(profile, command, commandTime, client), fault)
    {
      RecordLastCommand(lastCommand, requestTime);
      command := GenerateCommand(client, profile, history, pick, complete);
      GenerateCommandStartsInWorkspace(client, profile, history, pick, complete);
      var rec := BuildRecord(profile, command, commandTime, client);
      LogCommand(rec, fault);
    }
  }
}
