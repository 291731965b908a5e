/** `generate_command_with_llm`: a mock command when no completion client is configured;
    otherwise the model's answer, stripped and forced to start in the workspace, or a fixed
    fallback when the call fails. The completion service is an opaque function from request
    to completion, supplied by the caller. */
module Command {
  import opened Wrappers
  import opened Text
  import opened Config
  import opened Prompt

  /** What `generate_command_with_llm` joins between the workspace `cd` and a command. */
  const Connector := " && "

  /** The three commands mock mode picks from. */
  const MockCommands: seq<string> := [
    CdWorkspace + " && mkdir -p documents && echo 'Mock mode active' > documents/readme.txt",
    CdWorkspace + " && ls -lah",
    CdWorkspace + " && date > timestamp.txt"
  ]

  /** The command returned when the completion call fails in any way. */
  const ErrorCommand := CdWorkspace + " && echo 'LLM error' > error.log"

  /** The index `random.choice` draws among the mock commands. */
  type MockIndex = i: nat | i < 3

  /** One completion request: the model, the conversation and the bound on the answer's
      length (the sampling temperature is a fixed float and is not modelled). */
  datatype CompletionRequest = CompletionRequest(model: string, messages: seq<Message>, maxTokens: nat)

  /** What the completion call gives back: it raised an error, or it answered with a list of
      choices, each with a message content that may be `None`. */
  datatype Completion = Raised | Response(choices: seq<Option<string>>)

  /** The request `generate_command_with_llm` sends for this profile and history. */
  function CompletionRequestFor(p: Profile, history: seq<string>): CompletionRequest {
    CompletionRequest(ModelName, Conversation(p, history), MaxTokens)
  }

  /** `response.choices[0].message.content`, or `None` when that expression raises: the call
      failed, the list of choices is empty, or the content is `None` (so `.strip()` fails). */
  function FirstContent(c: Completion): Option<string>
  {
    if c.Response? && |c.choices| > 0 then c.choices[0] else None
  }

  /** Make a stripped command start in the workspace: it is kept when it already starts with
      `cd <workspace>` (the test does not look for ` &&`), and is otherwise prefixed with
      `cd <workspace> && `. */
  function Normalize(command: string): string {
    if StartsWith(command, CdWorkspace) then command else CdWorkspace + Connector + command
  }

  /** The result of normalising starts in the workspace and ends with the command it was given;
      it is the command itself exactly when the command already started with the prefix, and
      otherwise the prefix, the connector and the command. */
  lemma NormalizeSpec(command: string)
    ensures StartsWith(Normalize(command), CdWorkspace)
    ensures EndsWith(Normalize(command), command)
    ensures (Normalize(command) == command) <==> StartsWith(command, CdWorkspace)
    ensures !StartsWith(command, CdWorkspace) ==>
              Normalize(command)[..|CdWorkspace| + |Connector|] == CdWorkspace + Connector
              && Normalize(command)[|CdWorkspace| + |Connector|..] == command
  {
  }

  /** Normalising twice is normalising once. */
  lemma NormalizeIdempotent(command: string)
    ensures Normalize(Normalize(command)) == Normalize(command)
  {
  }

  /** The prefix test accepts a command that changes into a sibling directory whose name only
      begins with the workspace's name, and leaves it as it is. */
  lemma NormalizeKeepsSiblingDirectory(rest: string)
    ensures Normalize(CdWorkspace + "_old && " + rest) == CdWorkspace + "_old && " + rest
  {
  }

  /** `generate_command_with_llm(context)`, with the client's presence, the mock draw and the
      completion service passed in. With no client the mock command is returned and the
      completion service is not consulted. */
  function GenerateCommand(client: bool, p: Profile, history: seq<string>, pick: MockIndex,
                           complete: CompletionRequest -> Completion): string
  {
    if !client then MockCommands[pick]
    else
      match FirstContent(complete(CompletionRequestFor(p, history)))
      case None => ErrorCommand
      case Some(text) => Normalize(Strip(text))
  }

  /** Every mock command and the error fallback start in the workspace. */
  lemma FixedCommandsStartInWorkspace()
    ensures forall i :: 0 <= i < |MockCommands| ==> StartsWith(MockCommands[i], CdWorkspace)
    ensures StartsWith(ErrorCommand, CdWorkspace)
  {
  }

  /** Whatever the profile, history, draw and completion, the command starts in the workspace. */
  lemma GenerateCommandStartsInWorkspace(client: bool, p: Profile, history: seq<string>, pick: MockIndex,
                                         complete: CompletionRequest -> Completion)
    ensures StartsWith(GenerateCommand(client, p, history, pick, complete), CdWorkspace)
  {
  }

  /** Without a client the command is one of the three mock commands, and it depends on the
      draw alone: neither the completion service, nor the profile, nor the history changes it. */
  lemma MockModeIgnoresCompletion(p: Profile, history: seq<string>, pick: MockIndex,
                                  complete: CompletionRequest -> Completion,
                                  p': Profile, history': seq<string>,
                                  complete': CompletionRequest -> Completion)
    ensures GenerateCommand(false, p, history, pick, complete) in MockCommands
    ensures GenerateCommand(false, p, history, pick, complete)
         == GenerateCommand(false, p', history', pick, complete')
  {
  }

  /** With a client, any failure of the call, an empty list of choices or a missing content
      gives the fixed error command; no failure escapes. */
  lemma FailedCompletionFallsBack(p: Profile, history: seq<string>, pick: MockIndex,
                                  complete: CompletionRequest -> Completion)
    requires var c := complete(CompletionRequestFor(p, history));
      c.Raised? || (c.Response? && (c.choices == [] || c.choices[0].None?))
    ensures GenerateCommand(true, p, history, pick, complete) == ErrorCommand
  {
  }

  /** With a client and an answer, the command is the stripped answer, prefixed with
      `cd <workspace> && ` unless it already starts with `cd <workspace>`; either way it ends
      with the stripped answer. */
  lemma AnsweredCompletionIsNormalized(p: Profile, history: seq<string>, pick: MockIndex,
                                       complete: CompletionRequest -> Completion, text: string)
    requires var c := complete(CompletionRequestFor(p, history));
      c.Response? && |c.choices| > 0 && c.choices[0] == Some(text)
    ensures var r := GenerateCommand(true, p, history, pick, complete);
      && EndsWith(r, Strip(text))
      && (StartsWith(Strip(text), CdWorkspace) ==> r == Strip(text))
      && (!StartsWith(Strip(text), CdWorkspace) ==> r == CdWorkspace + Connector + Strip(text))
  {
    NormalizeSpec(Strip(text));
  }

  /** The error fallback is none of the mock commands, so a caller can tell a failed call. */
  lemma ErrorCommandIsNotMock()
    ensures ErrorCommand !in MockCommands
  {
    // The four commands have four different lengths.
    assert |ErrorCommand| == |CdWorkspace| + 32;
    assert |MockCommands[0]| == |CdWorkspace| + 72;
    assert |MockCommands[1]| == |CdWorkspace| + 11;
    assert |MockCommands[2]| == |CdWorkspace| + 24;
  }
}
