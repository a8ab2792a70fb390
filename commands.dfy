/** The RCON-backed slash commands: their arguments, their audit-log entry,
    whether the role gate applies, and the wire command each one builds. */
module Commands {
  import opened Wrappers
  import opened Text
  import opened Effects

  /** One invocation of an RCON-backed slash command, with its arguments. */
  datatype Command =
    | Kick(serverName: string, playerName: string)
    | RotateMap(serverName: string)
    | GiveItem(serverName: string, username: string, itemId: string)
    | Players(serverName: string)
    | BanList(serverName: string)
    | AddMod(serverName: string, uniqueId: string)         // the gated `addmod` handler
    | SetPin(serverName: string, pin: Option<string>)
    | Ban(serverName: string, playerName: string)
    | Unban(serverName: string, playerName: string)
    | GiveRconPlus(serverName: string, username: string)
    | SetMaxPlayers(serverName: string, maxPlayers: int)
    | AddModOpen(serverName: string, playerName: string)   // the ungated `addmod` handler

  /** Python's truthiness of the optional pin: given and non-empty. */
  predicate PinGiven(pin: Option<string>) {
    pin.Some? && pin.value != ""
  }

  /** The command name written to the audit log. */
  function Name(c: Command): string {
    match c
    case Kick(_, _) => "kick"
    case RotateMap(_) => "rotatemap"
    case GiveItem(_, _, _) => "giveitem"
    case Players(_) => "players"
    case BanList(_) => "banlist"
    case AddMod(_, _) => "addmod"
    case SetPin(_, _) => "setpin"
    case Ban(_, _) => "ban"
    case Unban(_, _) => "unban"
    case GiveRconPlus(_, _) => "GiveRCONplus"
    case SetMaxPlayers(_, _) => "setmaxplayers"
    case AddModOpen(_, _) => "addmod"
  }

  /** The argument dict written to the audit log, in its key order. */
  function LogArgs(c: Command): seq<(string, LogValue)> {
    var server := ("server_name", LogText(c.serverName));
    match c
    case Kick(_, p) => [server, ("player_name", LogText(p))]
    case RotateMap(_) => [server]
    case GiveItem(_, u, i) => [server, ("username", LogText(u)), ("item_id", LogText(i))]
    case Players(_) => [server]
    case BanList(_) => [server]
    case AddMod(_, id) => [server, ("unique_id", LogText(id))]
    case SetPin(_, pin) => [server, ("pin", if pin.Some? then LogText(pin.value) else LogNone)]
    case Ban(_, p) => [server, ("player_name", LogText(p))]
    case Unban(_, p) => [server, ("player_name", LogText(p))]
    case GiveRconPlus(_, u) => [server, ("username", LogText(u))]
    case SetMaxPlayers(_, n) => [server, ("max_players", LogInt(n))]
    case AddModOpen(_, p) => [server, ("player_name", LogText(p))]
  }

  function LogEntry(c: Command): Effect {
    Log(Name(c), LogArgs(c))
  }

  /** The handlers that check the role before anything else; `players`,
      `banlist` and the second `addmod` handler do not. */
  predicate RoleGated(c: Command) {
    !(c.Players? || c.BanList? || c.AddModOpen?)
  }

  /** The command string sent over RCON: arguments are spliced in as they
      are, with no quoting or escaping. */
  function WireCommand(c: Command): string {
    match c
    case Kick(_, p) => "kick " + p
    case RotateMap(_) => "RotateMap"
    case GiveItem(_, u, i) => "giveitem " + u + " " + i
    case Players(_) => "RefreshList"
    case BanList(_) => "banlist"
    case AddMod(_, id) => "AddMod " + id
    case SetPin(_, pin) => if PinGiven(pin) then "SetPin " + pin.value else "SetPin"
    case Ban(_, p) => "Ban " + p
    case Unban(_, p) => "Unban " + p
    case GiveRconPlus(_, u) => "GiveMenu " + u
    case SetMaxPlayers(_, n) => "SetMaxPlayers " + IntToDecimal(n)
    case AddModOpen(_, p) => "AddMod " + p
  }

  /** The protocol verb of each command. */
  function Verb(c: Command): string {
    match c
    case Kick(_, _) => "kick"
    case RotateMap(_) => "RotateMap"
    case GiveItem(_, _, _) => "giveitem"
    case Players(_) => "RefreshList"
    case BanList(_) => "banlist"
    case AddMod(_, _) => "AddMod"
    case SetPin(_, _) => "SetPin"
    case Ban(_, _) => "Ban"
    case Unban(_, _) => "Unban"
    case GiveRconPlus(_, _) => "GiveMenu"
    case SetMaxPlayers(_, _) => "SetMaxPlayers"
    case AddModOpen(_, _) => "AddMod"
  }

  /** The arguments each command passes on, in order; an absent or empty pin
      passes nothing. */
  function Arguments(c: Command): seq<string> {
    match c
    case Kick(_, p) => [p]
    case RotateMap(_) => []
    case GiveItem(_, u, i) => [u, i]
    case Players(_) => []
    case BanList(_) => []
    case AddMod(_, id) => [id]
    case SetPin(_, pin) => if PinGiven(pin) then [pin.value] else []
    case Ban(_, p) => [p]
    case Unban(_, p) => [p]
    case GiveRconPlus(_, u) => [u]
    case SetMaxPlayers(_, n) => [IntToDecimal(n)]
    case AddModOpen(_, p) => [p]
  }

  /** Each wire command is the verb and the arguments joined by single spaces. */
  lemma WireCommandIsJoin(c: Command)
    ensures WireCommand(c) == Join([Verb(c)] + Arguments(c), " ")
  {
    var words := [Verb(c)] + Arguments(c);
    if c.GiveItem? {
      assert words[1..][1..] == [words[2]];
      assert Join(words[1..], " ") == words[1] + " " + words[2];
      assert "giveitem " + c.username + " " + c.itemId
          == "giveitem" + " " + (c.username + " " + c.itemId);
    }
  }

  /** The wire command is the verb followed by the arguments, each its own
      space-separated token, whenever no argument contains a space. */
  lemma WireCommandTokens(c: Command)
    requires forall k :: 0 <= k < |Arguments(c)| ==> ' ' !in Arguments(c)[k]
    ensures SplitOn(WireCommand(c), ' ') == [Verb(c)] + Arguments(c)
  {
    var words := [Verb(c)] + Arguments(c);
    assert ' ' !in Verb(c);
    assert forall k :: 1 <= k < |words| ==> words[k] == Arguments(c)[k - 1];
    WireCommandIsJoin(c);
    SplitJoin(words, ' ');
  }

  /** Without escaping, a player name with a space in it reaches the server
      as two tokens. */
  lemma SpacedNameSplits(serverName: string, first: string, last: string)
    requires ' ' !in first && ' ' !in last
    ensures SplitOn(WireCommand(Kick(serverName, first + " " + last)), ' ') == ["kick", first, last]
  {
    var words := ["kick", first, last];
    assert words[1..][1..] == [last];
    assert Join(words[1..], " ") == first + " " + last;
    assert "kick " + (first + " " + last) == "kick" + " " + (first + " " + last);
    assert WireCommand(Kick(serverName, first + " " + last)) == Join(words, " ");
    SplitJoin(words, ' ');
  }

  /** `setmaxplayers` sends the verb and one token that reads back as the number. */
  lemma SetMaxPlayersCommand(serverName: string, maxPlayers: int)
    ensures SplitOn(WireCommand(SetMaxPlayers(serverName, maxPlayers)), ' ')
         == ["SetMaxPlayers", IntToDecimal(maxPlayers)]
    ensures ParseInt(SplitOn(WireCommand(SetMaxPlayers(serverName, maxPlayers)), ' ')[1])
         == Some(maxPlayers)
  {
    WireCommandTokens(SetMaxPlayers(serverName, maxPlayers));
    ParseIntDecimal(maxPlayers);
  }

  /** An absent or empty pin leaves the bare verb; a pin is appended after one space. */
  lemma SetPinCommand(serverName: string, pin: Option<string>)
    ensures !PinGiven(pin) ==> WireCommand(SetPin(serverName, pin)) == "SetPin"
    ensures PinGiven(pin) ==> WireCommand(SetPin(serverName, pin)) == "SetPin " + pin.value
    ensures WireCommand(SetPin(serverName, None)) == WireCommand(SetPin(serverName, Some("")))
    ensures WireCommand(SetPin(serverName, Some("1234"))) == "SetPin 1234"
  {
  }
}
