/**
 * Where a team's and an agent's files live under the agentary home:
 * `<home>/teams/<team>`, `<teamDir>/agents/<agent>`, and fixed leaf names below them.
 */
module MemoryPaths {
  import opened GoStrings
  import opened GoPath

  /** `SafeTeamName` and `SafeAgentName`: trimmed, with every space replaced by `_`. */
  function SafeName(name: string): (r: string)
    ensures ' ' !in r
    ensures |r| <= |name|
    ensures r == [] <==> forall k :: 0 <= k < |name| ==> IsSpace(name[k])
  {
    ReplaceCharIdempotent(TrimSpace(name), ' ', '_');
    ReplaceChar(TrimSpace(name), ' ', '_')
  }

  /** Making a name safe twice changes nothing. */
  lemma SafeNameIdempotent(name: string)
    ensures SafeName(SafeName(name)) == SafeName(name)
  {
    var t := TrimSpace(name);
    var r := ReplaceChar(t, ' ', '_');
    assert r == [] || (!IsSpace(r[0]) && !IsSpace(r[|r| - 1]));
    TrimSpaceFixed(r);
    ReplaceCharIdempotent(t, ' ', '_');
  }

  const TeamsDirName := "teams"
  const AgentsDirName := "agents"
  const SharedDirName := "shared"
  const CharterFileName := "charter.md"
  const JournalFileName := "journal.md"
  const NotesDirName := "notes"
  const AgentConfigFileName := "config.yaml"

  function TeamDir(home: string, teamName: string): string {
    JoinPath([home, TeamsDirName, SafeName(teamName)])
  }

  function AgentDir(teamDir: string, agentName: string): string {
    JoinPath([teamDir, AgentsDirName, SafeName(agentName)])
  }

  function SharedDir(teamDir: string): string { JoinPath([teamDir, SharedDirName]) }

  function CharterPath(teamDir: string): string { JoinPath([teamDir, CharterFileName]) }

  function JournalPath(agentDir: string): string { JoinPath([agentDir, JournalFileName]) }

  function NotesDir(agentDir: string): string { JoinPath([agentDir, NotesDirName]) }

  function AgentConfigPath(agentDir: string): string { JoinPath([agentDir, AgentConfigFileName]) }

  /** The cleaned directory `d` followed by `/leaf`. */
  function Below(d: string, leaf: string): string {
    if Clean(d) == "/" then "/" + leaf else Clean(d) + "/" + leaf
  }

  /** For an absolute home and a team name that is a plain segment once made safe, the team directory is `<home>/teams/<safe name>`. */
  lemma TeamDirLayout(home: string, teamName: string)
    requires IsAbs(home) && Segment(SafeName(teamName))
    ensures TeamDir(home, teamName) == Below(home, TeamsDirName) + "/" + SafeName(teamName)
  {
    JoinPathSegments(home, TeamsDirName, SafeName(teamName));
  }

  /** For an absolute team directory the agent directory is `<teamDir>/agents/<safe name>`. */
  lemma AgentDirLayout(teamDir: string, agentName: string)
    requires IsAbs(teamDir) && Segment(SafeName(agentName))
    ensures AgentDir(teamDir, agentName) == Below(teamDir, AgentsDirName) + "/" + SafeName(agentName)
  {
    JoinPathSegments(teamDir, AgentsDirName, SafeName(agentName));
  }

  /** Every leaf helper appends its fixed name to the cleaned absolute directory. */
  lemma LeafLayout(d: string)
    requires IsAbs(d)
    ensures SharedDir(d) == Below(d, SharedDirName)
    ensures CharterPath(d) == Below(d, CharterFileName)
    ensures JournalPath(d) == Below(d, JournalFileName)
    ensures NotesDir(d) == Below(d, NotesDirName)
    ensures AgentConfigPath(d) == Below(d, AgentConfigFileName)
  {
    JoinPathSegment(d, SharedDirName);
    JoinPathSegment(d, CharterFileName);
    JoinPathSegment(d, JournalFileName);
    JoinPathSegment(d, NotesDirName);
    JoinPathSegment(d, AgentConfigFileName);
  }
}
