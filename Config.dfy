/** Fixed values the decision service is configured with. */
module Config {

  /** The directory every generated command must change into first. */
  const WorkspaceDir := "/home/rocio/Documentos/GHOSTS/dummy_llm_agent/workspace"

  /** The prefix every generated command starts with. */
  const CdWorkspace := "cd " + WorkspaceDir

  /** The most entries the action history holds (`MAX_HISTORY`). */
  const MaxHistory: nat := 10

  /** How many of the latest history entries the user turn of the prompt shows. */
  const RecentLimit: nat := 5

  /** The completion model that is asked, and the bound on its answer's length. */
  const ModelName := "gpt-4o-mini"
  const MaxTokens: nat := 150

  /** The model identifier recorded when no completion client is configured. */
  const MockModel := "mock"

  /** The delay, in seconds, every log record announces after its command. */
  const DelayAfter: nat := 15
}
