/** The two messages sent to the completion model: a system instruction built from the NPC
    profile, and a user turn built from the most recent history entries. */
module Prompt {
  import opened Wrappers
  import opened Text
  import opened Config

  /** The NPC profile: the JSON object loaded from the profile file, each field possibly absent.
      The empty profile `{}` is the value before any successful load. */
  datatype Profile = Profile(name: Option<string>, role: Option<string>,
                             personality: Option<string>, interests: Option<seq<string>>)

  const EmptyProfile := Profile(None, None, None, None)

  /** One chat message. */
  datatype Message = Message(role: string, content: string)

  // ---------------------------------------------------------------------------
  // System prompt
  // ---------------------------------------------------------------------------

  const DefaultName := "Agent"
  const DefaultRole := "user"
  const DefaultPersonality := "curious and helpful"
  const DefaultInterests := ["technology", "learning"]
  const InterestSeparator := ", "

  function PromptName(p: Profile): string { p.name.GetOr(DefaultName) }
  function PromptRole(p: Profile): string { p.role.GetOr(DefaultRole) }
  function PromptPersonality(p: Profile): string { p.personality.GetOr(DefaultPersonality) }
  function PromptInterests(p: Profile): string { Join(p.interests.GetOr(DefaultInterests), InterestSeparator) }

  const Opening := "You are simulating the computer activity of "
  const RoleLead := ", a "
  const PersonalityLead := ".\n\nPersonality: "
  const InterestsLead := "\nInterests: "

  /** The fixed rules that follow the profile-dependent part. */
  const Instructions :=
    "\nWorking Directory: " + WorkspaceDir + "/\n"
    + "\n"
    + "Your job is to generate realistic Linux bash commands that this person would execute on their computer.\n"
    + "The commands should:\n"
    + "1. Be realistic and appropriate for this person's role and interests\n"
    + "2. Create files, folders, or perform tasks related to their work/interests\n"
    + "3. Be safe and non-destructive\n"
    + "4. Stay within the workspace directory\n"
    + "5. Show human-like behavior (mix of work, learning, curiosity)\n"
    + "\n"
    + "IMPORTANT RULES:\n"
    + "- ALWAYS start commands with: " + CdWorkspace + " &&\n"
    + "- Generate ONE command at a time\n"
    + "- Be creative but realistic\n"
    + "- Mix different types of activities (creating files, organizing, researching, learning)\n"
    + "- Sometimes do mundane tasks, sometimes interesting ones\n"
    + "- Respond ONLY with the bash command, no explanations\n"
    + "\n"
    + "Example commands:\n"
    + CdWorkspace + " && mkdir -p projects/ai_research\n"
    + CdWorkspace + " && echo \"Research notes on neural networks\" > notes.txt\n"
    + CdWorkspace + " && find . -name \"*.txt\" -exec wc -l {} \\;\n"

  /** The pieces of `get_system_prompt()`'s template, in order: fixed texts alternating with
      the four profile-dependent values. */
  function PromptPieces(p: Profile): seq<string> {
    [Opening, PromptName(p), RoleLead, PromptRole(p), PersonalityLead, PromptPersonality(p),
     InterestsLead, PromptInterests(p), Instructions]
  }

  /** `get_system_prompt()`: the template filled with the profile's fields or their defaults. */
  function SystemPrompt(p: Profile): string {
    Join(PromptPieces(p), "")
  }

  /** Where the name, the role, the personality and the joined interests start in the system
      prompt: each right after the fixed text that introduces it. */
  function RoleAt(p: Profile): nat {
    |Opening| + |PromptName(p)| + |RoleLead|
  }
  function PersonalityAt(p: Profile): nat {
    RoleAt(p) + |PromptRole(p)| + |PersonalityLead|
  }
  function InterestsAt(p: Profile): nat {
    PersonalityAt(p) + |PromptPersonality(p)| + |InterestsLead|
  }

  /** The system prompt starts with the fixed opening, holds the profile's name, role,
      personality and comma-joined interests verbatim, each right after the fixed text that
      introduces it. */
  lemma SystemPromptEmbedsProfile(p: Profile)
    ensures StartsWith(SystemPrompt(p), Opening)
    ensures OccursAt(SystemPrompt(p), |Opening|, PromptName(p))
    ensures OccursAt(SystemPrompt(p), |Opening| + |PromptName(p)|, RoleLead)
    ensures OccursAt(SystemPrompt(p), RoleAt(p), PromptRole(p))
    ensures OccursAt(SystemPrompt(p), RoleAt(p) + |PromptRole(p)|, PersonalityLead)
    ensures OccursAt(SystemPrompt(p), PersonalityAt(p), PromptPersonality(p))
    ensures OccursAt(SystemPrompt(p), PersonalityAt(p) + |PromptPersonality(p)|, InterestsLead)
    ensures OccursAt(SystemPrompt(p), InterestsAt(p), PromptInterests(p))
  {
    SystemPromptEmbedsLeadIns(p);
    SystemPromptEmbedsFields(p);
  }

  lemma SystemPromptEmbedsLeadIns(p: Profile)
    ensures StartsWith(SystemPrompt(p), Opening)
    ensures OccursAt(SystemPrompt(p), |Opening| + |PromptName(p)|, RoleLead)
    ensures OccursAt(SystemPrompt(p), RoleAt(p) + |PromptRole(p)|, PersonalityLead)
    ensures OccursAt(SystemPrompt(p), PersonalityAt(p) + |PromptPersonality(p)|, InterestsLead)
  {
    var ps := PromptPieces(p);
    OffsetsOfPieces(p);
    JoinEmbedsParts(ps, "", 0);
    JoinEmbedsParts(ps, "", 2);
    JoinEmbedsParts(ps, "", 4);
    JoinEmbedsParts(ps, "", 6);
  }

  lemma SystemPromptEmbedsFields(p: Profile)
    ensures OccursAt(SystemPrompt(p), |Opening|, PromptName(p))
    ensures OccursAt(SystemPrompt(p), RoleAt(p), PromptRole(p))
    ensures OccursAt(SystemPrompt(p), PersonalityAt(p), PromptPersonality(p))
    ensures OccursAt(SystemPrompt(p), InterestsAt(p), PromptInterests(p))
  {
    var ps := PromptPieces(p);
    OffsetsOfPieces(p);
    JoinEmbedsParts(ps, "", 1);
    JoinEmbedsParts(ps, "", 3);
    JoinEmbedsParts(ps, "", 5);
    JoinEmbedsParts(ps, "", 7);
  }

  lemma OffsetsOfPieces(p: Profile)
    ensures JoinOffset(PromptPieces(p), "", 1) == |Opening|
    ensures JoinOffset(PromptPieces(p), "", 2) == |Opening| + |PromptName(p)|
    ensures JoinOffset(PromptPieces(p), "", 3) == RoleAt(p)
    ensures JoinOffset(PromptPieces(p), "", 4) == RoleAt(p) + |PromptRole(p)|
    ensures JoinOffset(PromptPieces(p), "", 5) == PersonalityAt(p)
    ensures JoinOffset(PromptPieces(p), "", 6) == PersonalityAt(p) + |PromptPersonality(p)|
    ensures JoinOffset(PromptPieces(p), "", 7) == InterestsAt(p)
  {
  }

  /** Each field of the profile that is present is used as it is; each absent one falls back to
      its default. */
  lemma PromptFieldsUseDefaults(p: Profile)
    ensures PromptName(p) == (if p.name.Some? then p.name.value else "Agent")
    ensures PromptRole(p) == (if p.role.Some? then p.role.value else "user")
    ensures PromptPersonality(p) == (if p.personality.Some? then p.personality.value else "curious and helpful")
    ensures p.interests.None? ==> PromptInterests(p) == "technology, learning"
    ensures p.interests.Some? ==> PromptInterests(p) == Join(p.interests.value, ", ")
  {
  }

  /** Every single interest of the profile appears verbatim in the system prompt, at its place
      in the comma-joined list. */
  lemma SystemPromptEmbedsEachInterest(p: Profile, i: nat)
    requires p.interests.Some? && i < |p.interests.value|
    ensures OccursAt(SystemPrompt(p), InterestsAt(p) + JoinOffset(p.interests.value, InterestSeparator, i),
                     p.interests.value[i])
  {
    SystemPromptEmbedsFields(p);
    JoinEmbedsParts(p.interests.value, InterestSeparator, i);
    OccursWithin(SystemPrompt(p), InterestsAt(p), PromptInterests(p),
                 JoinOffset(p.interests.value, InterestSeparator, i), p.interests.value[i]);
  }

  // ---------------------------------------------------------------------------
  // User turn
  // ---------------------------------------------------------------------------

  const FirstQuestion := "What should I do first on my computer?"
  const RecentHeader := "Recent activities:\n"
  const NextQuestion := "\n\nWhat should I do next?"
  const EntrySeparator := '\n'

  /** The user message: the opening question for an empty history, or else the latest
      (at most five) entries, one per line, between a header and the follow-up question. */
  function UserMessage(history: seq<string>): string {
    if history == [] then FirstQuestion
    else RecentHeader + Join(Last(history, RecentLimit), [EntrySeparator]) + NextQuestion
  }

  /** The opening question is asked exactly when the history is empty; otherwise the message
      starts with the header, ends with the follow-up question, and holds the joined recent
      entries, the last min(5, |history|) of them in order, between the two. */
  lemma UserMessageShape(history: seq<string>)
    ensures (UserMessage(history) == FirstQuestion) <==> history == []
    ensures history != [] ==>
      var r, recent := UserMessage(history), Last(history, RecentLimit);
      && |recent| == (if |history| < 5 then |history| else 5)
      && recent == history[|history| - |recent|..]
      && StartsWith(r, RecentHeader) && EndsWith(r, NextQuestion)
      && r[|RecentHeader|..|r| - |NextQuestion|] == Join(recent, "\n")
  {
  }

  /** The entries a user message lists, read back line by line. */
  function RecentFromMessage(message: string): seq<string> {
    if |RecentHeader| + |NextQuestion| <= |message|
       && StartsWith(message, RecentHeader) && EndsWith(message, NextQuestion)
    then Split(message[|RecentHeader|..|message| - |NextQuestion|], EntrySeparator)
    else []
  }

  /** When none of the recent entries spans several lines, reading the user message back gives
      exactly the recent entries: the message loses nothing and adds nothing. */
  lemma UserMessageRoundTrip(history: seq<string>)
    requires forall k :: 0 <= k < |Last(history, RecentLimit)| ==> EntrySeparator !in Last(history, RecentLimit)[k]
    ensures RecentFromMessage(UserMessage(history)) == Last(history, RecentLimit)
  {
    if history == [] {
      assert FirstQuestion[..|RecentHeader|] != RecentHeader by {
        assert FirstQuestion[0] != RecentHeader[0];
      }
    } else {
      UserMessageShape(history);
      SplitJoin(Last(history, RecentLimit), EntrySeparator);
    }
  }

  /** The conversation sent to the completion model. */
  function Conversation(p: Profile, history: seq<string>): seq<Message> {
    [Message("system", SystemPrompt(p)), Message("user", UserMessage(history))]
  }
}
