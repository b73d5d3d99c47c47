/**
 * Integrations that agents can notify: a registry of named capabilities and
 * the two built-in notifiers, a Slack incoming webhook and a GitHub notifier.
 * The HTTP exchange with Slack is a parameter: the status code it answers with,
 * or `None` when the request cannot be sent.
 */
module Capabilities {
  import opened Wrappers
  import opened GoStrings

  /** A Slack incoming webhook; the channel and user name are optional overrides. */
  datatype SlackWebhook = SlackWebhook(webhookUrl: string, channel: string, username: string)

  /** The GitHub notifier: a token and an `owner/repo`. */
  datatype GitHubNotifier = GitHubNotifier(token: string, ownerRepo: string)

  datatype Capability = Slack(slack: SlackWebhook) | GitHub(github: GitHubNotifier)

  /** `Name` of each capability. */
  function Name(c: Capability): string {
    match c
    case Slack(_) => "slack"
    case GitHub(_) => "github"
  }

  /** The JSON object posted to Slack: always the text, the channel and user name only when set. */
  function SlackPayload(s: SlackWebhook, message: string): (p: map<string, string>)
    ensures "text" in p && p["text"] == message
    ensures "channel" in p <==> s.channel != ""
    ensures "channel" in p ==> p["channel"] == s.channel
    ensures "username" in p <==> s.username != ""
    ensures "username" in p ==> p["username"] == s.username
    ensures p.Keys <= {"text", "channel", "username"}
  {
    var p := map["text" := message];
    var p := if s.channel != "" then p["channel" := s.channel] else p;
    if s.username != "" then p["username" := s.username] else p
  }

  /** `SlackWebhook.Notify`: no request without a webhook URL; otherwise success exactly on a 2xx answer. */
  function SlackNotify(s: SlackWebhook, message: string, status: Option<int>): (r: Error)
    ensures s.webhookUrl == "" ==> r == Some("slack webhook URL not set")
    ensures s.webhookUrl != "" ==> (r.None? <==> status.Some? && 200 <= status.value < 300)
  {
    if s.webhookUrl == "" then Some("slack webhook URL not set")
    else match status
      case None => Some("slack webhook request failed")
      case Some(code) => if code < 200 || code >= 300 then Some("slack webhook returned " + Itoa(code)) else None
  }

  /** `GitHubNotifier.Notify`: an error without a token or repository; otherwise nothing is sent yet and it succeeds. */
  function GitHubNotify(g: GitHubNotifier): (r: Error)
    ensures r.None? <==> g.token != "" && g.ownerRepo != ""
  {
    if g.token == "" || g.ownerRepo == "" then Some("github token or owner/repo not set") else None
  }

  /** `Capability.Notify`, dispatched on the kind of capability. */
  function CapabilityNotify(c: Capability, message: string, status: Option<int>): Error {
    match c
    case Slack(s) => SlackNotify(s, message, status)
    case GitHub(g) => GitHubNotify(g)
  }

  /** `Registry`: the loaded capabilities by name. */
  class Registry {
    var caps: map<string, Capability>

    /** `NewRegistry`: empty. */
    constructor()
      ensures caps == map[]
    {
      caps := map[];
    }

    /** `Register`: the name now maps to the capability, replacing any earlier one; other names are untouched. */
    method Register(name: string, c: Capability)
      modifies this
      ensures caps == old(caps)[name := c]
      ensures Get(name) == Some(c)
      ensures forall n :: n != name ==> Get(n) == old(Get(n))
    {
      caps := caps[name := c];
    }

    /** `Get`: the capability registered under the name, `nil` when there is none. */
    function Get(name: string): (r: Option<Capability>)
      reads this
      ensures r.Some? <==> name in caps
      ensures r.Some? ==> r.value == caps[name]
    {
      if name in caps then Some(caps[name]) else None
    }

    /**
     * `Registry.Notify`: an unknown name is an error and notifies nothing;
     * otherwise the capability's own answer.  The name is quoted plainly,
     * without the escaping `%q` applies to quotes, backslashes and control
     * characters.
     */
    function Notify(name: string, message: string, status: Option<int>): (r: Error)
      reads this
      ensures name !in caps ==> r == Some("capability \"" + name + "\" not found")
      ensures name in caps ==> r == CapabilityNotify(caps[name], message, status)
    {
      match Get(name)
      case None => Some("capability \"" + name + "\" not found")
      case Some(c) => CapabilityNotify(c, message, status)
    }
  }

  /** Registering and looking up: the last registration under a name wins. */
  method RegisterTwice(name: string, first: Capability, second: Capability) returns (got: Option<Capability>)
    ensures got == Some(second)
  {
    var r := new Registry();
    r.Register(name, first);
    r.Register(name, second);
    got := r.Get(name);
  }

  /** A fresh registry knows no name, so every notification through it fails. */
  method FreshRegistryNotify(name: string, message: string, status: Option<int>) returns (err: Error)
    ensures err.Some?
  {
    var r := new Registry();
    err := r.Notify(name, message, status);
  }
}
