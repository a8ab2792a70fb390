/** The slash-command handlers: each logs the invocation, applies the role
    gate where it has one, resolves the server, sends one RCON request and
    replies according to the outcome, stopping at the first step that fails. */
module Gateway {
  import opened Wrappers
  import opened Text
  import opened Json
  import opened Policy
  import opened Registry
  import opened Effects
  import opened Commands
  import opened Replies

  /** The RCON round trip: the reply text, or `None` when anything went wrong. */
  type RconClient = (ServerDescriptor, string) -> Option<string>

  /** `json.loads` on a reply text. */
  type JsonParser = string -> Decoded

  const RoleDenied := "You do not have the required role to use this command."

  function ServerNotFound(serverName: string): string {
    "Server '" + serverName + "' not found."
  }

  /** The command gets past the role gate. */
  ghost predicate Permitted(c: Command, user: Member, requiredRoles: seq<string>) {
    !RoleGated(c) || Authorized(user, requiredRoles)
  }

  /** One RCON-backed slash command, from the audit entry to the reply. */
  method Dispatch(user: Member, requiredRoles: seq<string>, servers: map<string, ServerDescriptor>,
                  c: Command, rcon: RconClient, parse: JsonParser)
    returns (trace: seq<Effect>)
    ensures WellFormed(trace) && trace[0] == LogEntry(c)
    ensures Sends(trace) <==> Permitted(c, user, requiredRoles) && c.serverName in servers
    ensures !Permitted(c, user, requiredRoles) ==>
      trace == [LogEntry(c), Reply(RoleDenied)]
    ensures Permitted(c, user, requiredRoles) && c.serverName !in servers ==>
      trace == [LogEntry(c), Reply(ServerNotFound(c.serverName))]
    ensures Permitted(c, user, requiredRoles) && c.serverName in servers ==>
      var server := servers[c.serverName];
      trace == [LogEntry(c), Send(server, WireCommand(c)),
                Interpret(c, rcon(server, WireCommand(c)), parse)]
  {
    var log := LogEntry(c);
    if RoleGated(c) {
      var granted := HasRequiredRole(user, requiredRoles);
      if !granted {
        trace := [log, Reply(RoleDenied)];
        return;
      }
    }
    var details := GetServerDetails(c.serverName, servers);
    if details.None? {
      trace := [log, Reply(ServerNotFound(c.serverName))];
      return;
    }
    var command := WireCommand(c);
    var response := rcon(details.value, command);
    var outcome := Interpret(c, response, parse);
    trace := [log, Send(details.value, command), outcome];
    assert trace[1].Send?;
  }

  /** What `checkunban` learns from its HTTP request: the status code and, for
      a decoded envelope, its `content` field once base64- and JSON-decoded
      (`None` when the field is missing). */
  datatype BanFetch = BanFetch(statusCode: int, content: Option<Decoded>)

  const StatusPrefix := "Failed to retrieve data from GitHub API. Status code: "

  function StatusFailure(statusCode: int): string {
    StatusPrefix + IntToDecimal(statusCode)
  }

  /** `checkunban`: log, then one reply per failure site or the lookup's outcome.
      It has no role gate and sends no RCON request. */
  method CheckUnban(username: string, fetch: BanFetch) returns (trace: seq<Effect>)
    ensures WellFormed(trace) && |trace| == 2 && !Sends(trace)
    ensures trace[0] == Log("checkunban", [("username", LogText(username))])
    ensures fetch.statusCode != 200 ==> trace[1] == Reply(StatusFailure(fetch.statusCode))
    ensures fetch.statusCode == 200 && fetch.content.None? ==>
      trace[1] == Reply("No 'content' field found in data.")
    ensures fetch.statusCode == 200 && fetch.content.Some? && fetch.content.value.DecodeError? ==>
      trace[1] == Reply("Error decoding JSON content: " + fetch.content.value.detail)
    ensures fetch.statusCode == 200 && fetch.content.Some? && fetch.content.value.Parsed? ==>
      trace[1] == BanLookup(fetch.content.value.value, username)
  {
    trace := [Log("checkunban", [("username", LogText(username))])];
    var bannedUsers: Json;
    if fetch.statusCode == 200 {
      if fetch.content.Some? {
        match fetch.content.value
        case DecodeError(detail) =>
          trace := trace + [Reply("Error decoding JSON content: " + detail)];
          return;
        case Parsed(value) =>
          bannedUsers := value;
      } else {
        trace := trace + [Reply("No 'content' field found in data.")];
        return;
      }
    } else {
      trace := trace + [Reply(StatusFailure(fetch.statusCode))];
      return;
    }
    trace := trace + [BanLookup(bannedUsers, username)];
  }

  /** The status-code failure message ends with the code, which reads back as
      the number. */
  lemma StatusCodeShown(statusCode: int)
    ensures |StatusPrefix| < |StatusFailure(statusCode)|
    ensures StatusFailure(statusCode)[..|StatusPrefix|] == StatusPrefix
    ensures ParseInt(StatusFailure(statusCode)[|StatusPrefix|..]) == Some(statusCode)
  {
    var m := StatusFailure(statusCode);
    assert m[..|StatusPrefix|] == StatusPrefix;
    assert m[|StatusPrefix|..] == IntToDecimal(statusCode);
    ParseIntDecimal(statusCode);
  }

  /** A 404 response shows "404". */
  lemma NotFoundStatusShown()
    ensures StatusFailure(404) == StatusPrefix + "404"
  {
    assert NatToDecimal(404) == "404" by {
      assert NatToDecimal(4) == "4";
      assert NatToDecimal(40) == "40";
    }
  }
}
