/** How each handler turns what the RCON helper returned into the one thing
    the user sees: a reply message, or an exception that escapes the handler. */
module Replies {
  import opened Wrappers
  import opened Text
  import opened Json
  import opened Effects
  import opened Commands

  /** Python's `if response:` on what `send_pavlov_command` returned: `None`
      (the request failed) and the empty string both fail the test. */
  predicate Present(response: Option<string>) {
    response.Some? && response.value != ""
  }

  /** The handlers that reply with a fixed acknowledgement plus the raw response. */
  predicate Acknowledged(c: Command) {
    c.Kick? || c.RotateMap? || c.GiveItem? || c.AddMod? || c.SetPin?
    || c.Ban? || c.Unban? || c.SetMaxPlayers?
  }

  function SuccessText(c: Command): string
    requires Acknowledged(c)
  {
    match c
    case Kick(s, p) => "Player " + p + " kicked from " + s + "."
    case RotateMap(s) => "Map rotated on " + s + "."
    case GiveItem(s, u, i) => "Item " + i + " given to " + u + " on " + s + "."
    case AddMod(s, id) => "Player " + id + " added to moderator list on " + s + "."
    case SetPin(s, pin) => "Server pin " + (if PinGiven(pin) then "set" else "removed") + " on " + s + "."
    case Ban(s, p) => "Player " + p + " banned from " + s + "."
    case Unban(s, p) => "Player " + p + " unbanned on " + s + "."
    case SetMaxPlayers(s, n) => "Maximum players set to " + IntToDecimal(n) + " on " + s + "."
  }

  function FailureText(c: Command): string
    requires Acknowledged(c)
  {
    match c
    case Kick(s, p) => "Failed to kick player " + p + " from " + s + "."
    case RotateMap(s) => "Failed to rotate map on " + s + "."
    case GiveItem(s, u, i) => "Failed to give item " + i + " to " + u + " on " + s + "."
    case AddMod(s, id) => "Failed to add player " + id + " to moderator list on " + s + "."
    case SetPin(s, pin) => "Failed to " + (if PinGiven(pin) then "set" else "remove") + " server pin on " + s + "."
    case Ban(s, p) => "Failed to ban player " + p + " from " + s + "."
    case Unban(s, p) => "Failed to unban player " + p + " on " + s + "."
    case SetMaxPlayers(s, _) => "Failed to set max players on " + s + "."
  }

  /** The reply of a handler that acknowledges: its success text and the raw
      response, or its failure text. */
  function Acknowledge(c: Command, response: Option<string>): Effect
    requires Acknowledged(c)
  {
    if Present(response) then Reply(SuccessText(c) + "\nResponse: " + response.value)
    else Reply(FailureText(c))
  }

  /** `f"{player['Username']}"` for one entry of the player list. */
  function PlayerName(player: Json): Result<string> {
    match player
    case JObject(fields) =>
      (match Lookup(fields, "Username")
       case Some(v) => Ok(PyStr(v))
       case None => Err("KeyError"))
    case _ => Err("TypeError")
  }

  /** The list comprehension over the players, evaluated left to right: the
      first entry that raises ends it with that exception. */
  function PlayerNames(players: seq<Json>): (r: Result<seq<string>>)
    ensures r.Ok? <==> forall k :: 0 <= k < |players| ==> PlayerName(players[k]).Ok?
    ensures r.Ok? ==> |r.value| == |players|
                      && forall k :: 0 <= k < |players| ==> r.value[k] == PlayerName(players[k]).value
    ensures r.Err? ==> exists k :: 0 <= k < |players| && PlayerName(players[k]) == Err(r.exception)
                                   && forall j :: 0 <= j < k ==> PlayerName(players[j]).Ok?
  {
    if players == [] then Ok([])
    else
      match PlayerName(players[0])
      case Err(e) => Err(e)
      case Ok(name) =>
        var rest := PlayerNames(players[1..]);
        assert forall k :: 1 <= k < |players| ==> players[1..][k - 1] == players[k];
        match rest
        case Err(e) =>
          assert exists k :: 1 <= k < |players| && PlayerName(players[k]) == Err(e)
                             && forall j :: 0 <= j < k ==> PlayerName(players[j]).Ok? by {
            var k' :| 0 <= k' < |players| - 1 && PlayerName(players[1..][k']) == Err(e)
                      && forall j :: 0 <= j < k' ==> PlayerName(players[1..][j]).Ok?;
            assert PlayerName(players[k' + 1]) == Err(e);
          }
          Err(e)
        case Ok(names) => Ok([name] + names)
  }

  /** The strings `"\n".join(banned)` iterates over, or the exception it raises. */
  function BanEntries(banned: Json): Result<seq<string>> {
    match banned
    case JArray(items) =>
      if forall k :: 0 <= k < |items| ==> items[k].JString?
      then Ok(seq(|items|, k requires 0 <= k < |items| => items[k].text))
      else Err("TypeError")
    case JString(s) => Ok(seq(|s|, k requires 0 <= k < |s| => [s[k]]))
    case JObject(fields) => Ok(Keys(fields))
    case _ => Err("TypeError")
  }

  /** The reply of `players` to what `RefreshList` returned. */
  function InterpretPlayers(serverName: string, response: Option<string>, parse: string -> Decoded): Effect {
    if !Present(response) then
      Reply("Failed to retrieve player list for server '" + serverName + "'.")
    else
      match parse(response.value)
      case DecodeError(_) => Reply("Failed to parse player list response.")
      case Parsed(data) =>
        if !data.JObject? then Fault("AttributeError")
        else
          var playerList := GetOr(data.fields, "PlayerList", JArray([]));
          if !Truthy(playerList) then
            Reply("No players currently on server '" + serverName + "'.")
          else if !playerList.JArray? then Fault("TypeError")
          else
            match PlayerNames(playerList.items)
            case Err(e) => Fault(e)
            case Ok(names) =>
              Reply("Current Players on " + serverName + ":\n```\n" + Join(names, "\n") + "\n```")
  }

  /** The reply of `banlist` to what `banlist` returned. */
  function InterpretBanList(serverName: string, response: Option<string>, parse: string -> Decoded): Effect {
    if !Present(response) then
      Reply("Failed to retrieve ban list for server '" + serverName + "'.")
    else
      match parse(response.value)
      case DecodeError(_) => Reply("Failed to parse ban list response.")
      case Parsed(data) =>
        if !data.JObject? then Fault("AttributeError")
        else
          var bannedPlayers := GetOr(data.fields, "BanList", JArray([]));
          if !Truthy(bannedPlayers) then
            Reply("No banned players currently on server '" + serverName + "'.")
          else
            match BanEntries(bannedPlayers)
            case Err(e) => Fault(e)
            case Ok(entries) =>
              Reply("Banned Players on " + serverName + ":\n```\n" + Join(entries, "\n") + "\n```")
  }

  /** Python's `str()` of the optional response, as an f-string shows it. */
  function ShowResponse(response: Option<string>): string {
    if response.Some? then response.value else "None"
  }

  /** The terminal effect of a command once its request has been sent. */
  function Interpret(c: Command, response: Option<string>, parse: string -> Decoded): (e: Effect)
    ensures Terminal(e)
    ensures e.Fault? ==> Present(response)
    ensures Acknowledged(c) || c.AddModOpen? ==> e.Reply?
  {
    match c
    case Players(s) => InterpretPlayers(s, response, parse)
    case BanList(s) => InterpretBanList(s, response, parse)
    case GiveRconPlus(s, _) =>
      // the success message names an undefined variable, so it raises instead
      if Present(response) then Fault("NameError") else Reply("Failed to give RCON on " + s + ".")
    case AddModOpen(_, _) => Reply("Response: " + ShowResponse(response))
    case _ => Acknowledge(c, response)
  }

  /** The `checkunban` lookup of one username in the decoded ban document. */
  function BanLookup(users: Json, username: string): (e: Effect)
    ensures Terminal(e)
    ensures e.Fault? ==> e.exception in {"AttributeError", "TypeError"}
    ensures users.JObject? ==>
      (e.Fault? <==> (Lookup(users.fields, username).Some?
                      && !Lookup(users.fields, username).value.JObject?))
  {
    var notFound := Reply("User " + username + " is not found in the ban list.");
    match users
    case JObject(fields) =>
      (match Lookup(fields, username)
       case None => notFound
       case Some(details) =>
         if !details.JObject? then Fault("AttributeError")
         else
           var bannedUntil := GetOr(details.fields, "banneduntil", JString("N/A"));
           var banReason := GetOr(details.fields, "BanReason", JString("N/A"));
           Reply("User " + username + " is banned until " + PyStr(bannedUntil)
                 + " for reason: " + PyStr(banReason) + "."))
    case JArray(items) =>
      // a list holding the name passes `in`, then indexing it by a string raises
      if JString(username) in items then Fault("TypeError") else notFound
    case JString(s) =>
      // `in` on a string is a substring test, then indexing it by a string raises
      if Contains(s, username)
      then Fault("TypeError") else notFound
    case _ => Fault("TypeError")
  }

  /** A plain acknowledgement shows the response verbatim at its end exactly
      when the response is a non-empty string; `None` and `""` both give the
      same failure reply, and it differs from every success reply. */
  lemma AcknowledgedReply(c: Command, response: Option<string>)
    requires Acknowledged(c)
    ensures Acknowledge(c, response).Reply?
    ensures Present(response) ==>
      var m := Acknowledge(c, response).message;
      var tail := "\nResponse: " + response.value;
      |tail| <= |m| && m[|m| - |tail|..] == tail
    ensures !Present(response) ==> Acknowledge(c, response) == Acknowledge(c, None)
    ensures Acknowledge(c, None) == Acknowledge(c, Some(""))
    ensures Present(response) ==> Acknowledge(c, response) != Acknowledge(c, None)
  {
    TextsDiffer(c);
    if Present(response) {
      var tail := "\nResponse: " + response.value;
      var m := SuccessText(c) + tail;
      assert SuccessText(c) + "\nResponse: " + response.value == m;
      assert m[|m| - |tail|..] == tail;
      assert m[0] == SuccessText(c)[0];
    }
  }

  /** The eight acknowledging handlers reply through Acknowledge. */
  lemma InterpretAcknowledges(c: Command, response: Option<string>, parse: string -> Decoded)
    requires Acknowledged(c)
    ensures Interpret(c, response, parse) == Acknowledge(c, response)
  {
  }

  /** Every failure text starts with "Failed"; no success text does. */
  lemma TextsDiffer(c: Command)
    requires Acknowledged(c)
    ensures |FailureText(c)| > 0 && FailureText(c)[0] == 'F'
    ensures |SuccessText(c)| > 0 && SuccessText(c)[0] != 'F'
  {
    match c
    case Kick(s, p) =>
    case RotateMap(s) =>
    case GiveItem(s, u, i) =>
    case AddMod(s, id) =>
    case SetPin(s, pin) =>
    case Ban(s, p) =>
    case Unban(s, p) =>
    case SetMaxPlayers(s, n) =>
  }

  /** `GiveRCONplus` never acknowledges: a successful request ends in a
      `NameError`, a failed one in the fixed failure reply. */
  lemma GiveRconPlusNeverAcknowledges(serverName: string, username: string,
                                      response: Option<string>, parse: string -> Decoded)
    ensures Interpret(GiveRconPlus(serverName, username), response, parse).Fault? <==> Present(response)
    ensures !Present(response) ==>
      Interpret(GiveRconPlus(serverName, username), response, parse)
        == Reply("Failed to give RCON on " + serverName + ".")
  {
  }

  /** The ungated `addmod` replies the same way whatever happened, so a failed
      request is indistinguishable from a server that answered "None". */
  lemma OpenAddModConflates(serverName: string, playerName: string, parse: string -> Decoded)
    ensures Interpret(AddModOpen(serverName, playerName), None, parse)
         == Interpret(AddModOpen(serverName, playerName), Some("None"), parse)
         == Reply("Response: None")
  {
  }

  /** A non-empty player list is shown one `Username` per line, in the order
      the server sent it; the lines read back as the names. */
  lemma PlayersListed(serverName: string, raw: string, parse: string -> Decoded,
                      fields: seq<(string, Json)>, players: seq<Json>, names: seq<string>)
    requires raw != "" && parse(raw) == Parsed(JObject(fields))
    requires Lookup(fields, "PlayerList") == Some(JArray(players))
    requires |players| >= 1 && |names| == |players|
    requires forall k :: 0 <= k < |players| ==>
      players[k].JObject? && Lookup(players[k].fields, "Username") == Some(JString(names[k]))
    ensures InterpretPlayers(serverName, Some(raw), parse)
         == Reply("Current Players on " + serverName + ":\n```\n" + Join(names, "\n") + "\n```")
    ensures (forall k :: 0 <= k < |names| ==> '\n' !in names[k]) ==>
      SplitOn(Join(names, "\n"), '\n') == names
  {
    var r := PlayerNames(players);
    assert r.Ok?;
    assert r.value == names;
    if forall k :: 0 <= k < |names| ==> '\n' !in names[k] {
      SplitJoin(names, '\n');
    }
  }

  /** Two players in the payload are listed one per line, in payload order. */
  lemma PlayersExample(serverName: string, raw: string, parse: string -> Decoded, first: string, second: string)
    requires raw != ""
    requires parse(raw) == Parsed(JObject([("PlayerList", JArray([
      JObject([("Username", JString(first))]),
      JObject([("Username", JString(second))])]))]))
    ensures InterpretPlayers(serverName, Some(raw), parse)
         == Reply("Current Players on " + serverName + ":\n```\n" + first + "\n" + second + "\n```")
  {
    var p0 := JObject([("Username", JString(first))]);
    var p1 := JObject([("Username", JString(second))]);
    var players := [p0, p1];
    var fields := [("PlayerList", JArray(players))];
    var names := [first, second];
    assert Lookup(fields, "PlayerList") == Some(JArray(players));
    assert Lookup(p0.fields, "Username") == Some(JString(first));
    assert Lookup(p1.fields, "Username") == Some(JString(second));
    assert forall k :: 0 <= k < |players| ==>
      players[k].JObject? && Lookup(players[k].fields, "Username") == Some(JString(names[k])) by {
      forall k | 0 <= k < |players|
        ensures players[k].JObject? && Lookup(players[k].fields, "Username") == Some(JString(names[k]))
      {
        if k == 0 { assert players[k] == p0; } else { assert players[k] == p1; }
      }
    }
    PlayersListed(serverName, raw, parse, fields, players, names);
    assert Join(names, "\n") == first + "\n" + second by {
      assert names[1..] == [second];
    }
  }

  /** No reply data, an undecodable reply, and an empty or missing list each
      have their own fixed message; a decode failure is never reported as empty. */
  lemma PlayersReplies(serverName: string, response: Option<string>, parse: string -> Decoded)
    ensures !Present(response) ==>
      InterpretPlayers(serverName, response, parse)
        == Reply("Failed to retrieve player list for server '" + serverName + "'.")
    ensures Present(response) && parse(response.value).DecodeError? ==>
      InterpretPlayers(serverName, response, parse) == Reply("Failed to parse player list response.")
    ensures (&& Present(response) && parse(response.value).Parsed? && parse(response.value).value.JObject?
             && Lookup(parse(response.value).value.fields, "PlayerList") in [None, Some(JArray([]))]) ==>
      InterpretPlayers(serverName, response, parse)
        == Reply("No players currently on server '" + serverName + "'.")
    ensures Reply("Failed to parse player list response.")
         != Reply("No players currently on server '" + serverName + "'.")
  {
    assert ("No players currently on server '" + serverName + "'.")[0] == 'N';
  }

  /** A non-empty ban list is shown one entry per line, in the server's order. */
  lemma BanListListed(serverName: string, raw: string, parse: string -> Decoded,
                      fields: seq<(string, Json)>, items: seq<Json>, entries: seq<string>)
    requires raw != "" && parse(raw) == Parsed(JObject(fields))
    requires Lookup(fields, "BanList") == Some(JArray(items))
    requires |items| >= 1 && |entries| == |items|
    requires forall k :: 0 <= k < |items| ==> items[k] == JString(entries[k])
    ensures InterpretBanList(serverName, Some(raw), parse)
         == Reply("Banned Players on " + serverName + ":\n```\n" + Join(entries, "\n") + "\n```")
    ensures (forall k :: 0 <= k < |entries| ==> '\n' !in entries[k]) ==>
      SplitOn(Join(entries, "\n"), '\n') == entries
  {
    var r := BanEntries(JArray(items));
    assert r.Ok? && r.value == entries;
    if forall k :: 0 <= k < |entries| ==> '\n' !in entries[k] {
      SplitJoin(entries, '\n');
    }
  }

  /** The ban-list counterpart of PlayersReplies. */
  lemma BanListReplies(serverName: string, response: Option<string>, parse: string -> Decoded)
    ensures !Present(response) ==>
      InterpretBanList(serverName, response, parse)
        == Reply("Failed to retrieve ban list for server '" + serverName + "'.")
    ensures Present(response) && parse(response.value).DecodeError? ==>
      InterpretBanList(serverName, response, parse) == Reply("Failed to parse ban list response.")
    ensures (&& Present(response) && parse(response.value).Parsed? && parse(response.value).value.JObject?
             && Lookup(parse(response.value).value.fields, "BanList") in [None, Some(JArray([]))]) ==>
      InterpretBanList(serverName, response, parse)
        == Reply("No banned players currently on server '" + serverName + "'.")
    ensures Reply("Failed to parse ban list response.")
         != Reply("No banned players currently on server '" + serverName + "'.")
  {
    assert ("No banned players currently on server '" + serverName + "'.")[0] == 'N';
  }

  /** A recorded field is shown with Python's `str()`, a missing one as "N/A". */
  function ShownOrNA(details: seq<(string, Json)>, key: string): string {
    if forall k :: 0 <= k < |details| ==> details[k].0 != key then "N/A"
    else PyStr(Lookup(details, key).value)
  }

  /** A listed user is reported with their ban end and reason, each "N/A" when
      the record lacks it; string values appear verbatim. */
  lemma BanLookupFound(fields: seq<(string, Json)>, username: string, details: seq<(string, Json)>)
    requires Lookup(fields, username) == Some(JObject(details))
    ensures BanLookup(JObject(fields), username)
         == Reply("User " + username + " is banned until " + ShownOrNA(details, "banneduntil")
                  + " for reason: " + ShownOrNA(details, "BanReason") + ".")
    ensures forall t :: Lookup(details, "banneduntil") == Some(JString(t)) ==> ShownOrNA(details, "banneduntil") == t
    ensures forall t :: Lookup(details, "BanReason") == Some(JString(t)) ==> ShownOrNA(details, "BanReason") == t
  {
  }

  /** A user absent from the ban mapping is reported as not found. */
  lemma BanLookupMissing(fields: seq<(string, Json)>, username: string)
    requires forall k :: 0 <= k < |fields| ==> fields[k].0 != username
    ensures BanLookup(JObject(fields), username)
         == Reply("User " + username + " is not found in the ban list.")
  {
  }
}
