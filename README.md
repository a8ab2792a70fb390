# Pavlov RCON command gateway: a Dafny model

This project models the decision logic of a Discord bot that administers
Pavlov VR game servers over RCON (`commands.py`). Each slash command logs
the invocation. Most then check the member's roles. Every RCON command
then resolves the named server, builds a one-line RCON command, sends it
and turns the outcome into a reply. `checkunban` instead looks a user up
in a ban document fetched over HTTP.

The model has these modules:

- `Policy`: the role gate `has_required_role`, written as a loop with an early exit.
- `Registry`: the server lookup `get_server_details`.
- `Commands`: one constructor per RCON handler, with the audit-log entry, whether the handler is role-gated, and the wire command it builds.
- `Replies`: how each handler reads the RCON outcome:
  - plain acknowledgements;
  - the `players` and `banlist` JSON payloads;
  - the `checkunban` lookup.
- `Effects`: a handler's behaviour as a trace of effects. The effects are `Log`, `Send`, `Reply`, and `Fault` (a Python exception that escapes the handler).
- `Gateway`: the shared handler pipeline `Dispatch` and the `checkunban` handler `CheckUnban`.
- `Text` and `Json` hold the Python string and object behaviour the handlers rely on:
  - `str.join`, `str(int)` and the substring test `in`;
  - truthiness, `dict.get` and `str()` of decoded JSON.

`SplitOn` and `ParseInt` read a built command back so that its tokens and its
number can be stated. They model nothing in `commands.py`.

Some inputs the handlers get from outside are parameters:
- what the RCON client returns (`RconClient`, `None` on any exception);
- what `json.loads` returns (`JsonParser`);
- the configured roles and servers;
- the HTTP/ban-document outcome (`BanFetch`).

Three behaviours a reader might not expect, all modelled as the code does them:
- an empty list of required roles denies everybody; it does not lift the restriction;
- `checkunban` accepts status code 200 only, not any 2xx;
- an empty-string RCON reply counts as a failure, just as `None` does (`if response:`).

The handler for `GiveRCONplus` names an undefined variable (`usermame`) in its
success message. Its success path therefore raises `NameError`. The model
records this as `Fault("NameError")`, not as a reply. Both `addmod`
registrations are modelled: the role-gated one as `AddMod` and the ungated
one as `AddModOpen`. The model does not decide which of the two the Discord
library keeps.

## Model

| member | source | states |
|---|---|---|
| `Policy.HasRequiredRole` | commands.py:21-26 | The loop returns true iff some configured role name equals the name of one of the member's roles. An empty configured list denies. |
| `Policy.AuthorizedIffIntersects` | commands.py:21-26 | The gate is exactly a set-intersection test between the configured names and the member's role names. |
| `Registry.GetServerDetails` | commands.py:18-19 | The lookup yields a descriptor iff the exact name is a key of the server map. The descriptor is the one stored under that key; otherwise the result is `None`. |
| `Registry.LookupIsCaseSensitive` | commands.py:18-19 | "alpha" is not found when only "Alpha" is configured. "Alpha" is found. |
| `Commands.WireCommandTokens` | commands.py:65-424 | Each command `WireCommand` builds (lines 65, 86, 107, 124, 153, 300, 322, 344, 365, 386, 407, 424) splits on spaces into exactly the verb followed by the arguments in order, when no argument contains a space. |
| `Commands.SpacedNameSplits` | commands.py:65 | `WireCommand` does no escaping. A player name "first last" reaches the server as two separate tokens after `kick`. |
| `Commands.SetMaxPlayersCommand` | commands.py:407 | In `WireCommand`, `setmaxplayers` sends the `SetMaxPlayers` verb and one token. That token reads back as the given integer, negative values included. |
| `Commands.SetPinCommand` | commands.py:322 | In `WireCommand`, a `None` or empty pin sends the bare `SetPin`. A pin sends `SetPin <pin>`, for example `SetPin 1234`. |
| `Text.ParseIntDecimal` | commands.py:407 | `IntToDecimal`, the decimal rendering of an integer (Python `str(int)`), reads back as that integer. |
| `Text.SplitJoin` | commands.py:160 | `Join`, Python's `"\n".join`, loses nothing and keeps order: splitting the joined text on newlines gives back the entries, when none contains a newline. |
| `Json.Lookup` | commands.py:131 | `dict.get` finds a value iff the key occurs among the entries. The value is the one stored under that key. |
| `Replies.AcknowledgedReply` | commands.py:67-70 | For the eight acknowledging handlers (the reply branches at lines 67-70, 88-91, 109-112, 302-305, 324-327, 346-349, 367-370, 409-412):<br>- a non-empty response ends the reply `Acknowledge` builds, right after `"\nResponse: "`;<br>- `None` and `""` give the same failure reply;<br>- the failure reply differs from every success reply. |
| `Replies.InterpretAcknowledges` | commands.py:67-70 | In `Interpret`, each of those eight handlers replies exactly as `Acknowledge` says, whatever the parser. |
| `Replies.Interpret` | commands.py:67-426 | The reply step every RCON handler takes once its request was sent (lines 67-70, 88-91, 109-112, 128-141, 155-168, 302-305, 324-327, 346-349, 367-370, 388-391, 409-412, 426):<br>- the outcome is a single reply or an escaping exception;<br>- an exception escapes only after a non-empty response;<br>- the eight acknowledging handlers and the ungated `addmod` always reply. |
| `Replies.GiveRconPlusNeverAcknowledges` | commands.py:388-391 | In `Interpret`, `GiveRCONplus` ends in an exception exactly when the request succeeded. Otherwise it gives the fixed failure reply. |
| `Replies.OpenAddModConflates` | commands.py:424-426 | In `Interpret`, the ungated `addmod` replies "Response: None" both when the request failed and when the server answered "None". |
| `Replies.PlayerNames` | commands.py:133 | The comprehension succeeds iff every player entry yields its `Username`. Names come out one per entry, in order. Otherwise the first failing entry's exception escapes. |
| `Replies.PlayersListed` | commands.py:128-135 | In `InterpretPlayers`, the `players` reply, a non-empty `PlayerList` of records with `Username` strings is shown one name per line, in the server's order. Those lines split back into the names when none contains a newline. |
| `Replies.PlayersExample` | commands.py:130-135 | In `InterpretPlayers`, a payload with two players renders their two names, in payload order, one per line inside the code block. |
| `Replies.PlayersReplies` | commands.py:128-141 | In `InterpretPlayers`, each case gets its own fixed reply:<br>- no usable response gives the retrieval failure;<br>- a decode error gives "Failed to parse player list response.";<br>- a missing or empty `PlayerList` gives "No players currently on server ...".<br>The parse failure and the empty-list message differ. |
| `Replies.BanListListed` | commands.py:155-162 | In `InterpretBanList`, the `banlist` reply, a non-empty `BanList` of strings is shown one entry per line, in the server's order. Those lines split back into the entries when none contains a newline. |
| `Replies.BanListReplies` | commands.py:155-168 | In `InterpretBanList`, each case gets its own fixed reply:<br>- no usable response gives the retrieval failure;<br>- a decode error gives the parse failure;<br>- a missing or empty `BanList` gives the "No banned players" message.<br>The parse failure and the empty-list message differ. |
| `Replies.BanLookup` | commands.py:194-200 | The `checkunban` lookup ends in a single reply or exception, and the exception is `AttributeError` or `TypeError`. For a mapping document it raises exactly when the user's entry exists and is not a mapping (`.get` on it fails). |
| `Replies.BanLookupFound` | commands.py:194-198 | In `BanLookup`, a listed user is reported with `banneduntil` and `BanReason`. Each is `'N/A'` when absent, and string values appear verbatim. |
| `Replies.BanLookupMissing` | commands.py:199-200 | In `BanLookup`, a user absent from the mapping gets "User <u> is not found in the ban list.". |
| `Gateway.Dispatch` | commands.py:51-426 | For every RCON handler (not `checkunban`, `debug`, `help`):<br>- the log entry comes first and only there;<br>- there is exactly one terminal effect, last;<br>- a `Send` happens iff the member passes the role gate (or the handler has none) and the server exists;<br>- a denied member gets only the fixed denial reply;<br>- an unknown server gets exactly "Server '<name>' not found.";<br>- otherwise the exact wire command goes to the resolved server and the reply interprets its outcome. |
| `Gateway.CheckUnban` | commands.py:170-200 | `checkunban` logs, then ends in exactly one terminal effect and sends nothing. That effect is one of four:<br>- the status-code failure reply for a status other than 200;<br>- the missing-`content` reply;<br>- the inner decode error reply with its detail;<br>- the ban lookup's reply or exception. |
| `Gateway.StatusCodeShown` | commands.py:190-191 | `StatusFailure`, the status failure message, is the fixed prefix followed by the code as a decimal that reads back as the code. |
| `Gateway.NotFoundStatusShown` | commands.py:190-191 | In `StatusFailure`, a 404 status shows as the prefix followed by "404". |

## Left out

- Discord plumbing is left out: embeds, ephemeral flags, `interaction.response`, the log-channel lookup and the log embed (lines 39-48). Logging is the abstract `Log` effect, recorded whether or not a log channel exists. An exception raised while sending the log embed is not modelled.
- The `debug` and `help` handlers are left out. They produce static embeds.
- The network is left out: `PavlovRCON`, `asyncio.create_task` and the `print` debugging output. The RCON round trip is the `RconClient` parameter, and `json.dumps` of a non-string reply is part of its opaque string result.
- Configuration loading (lines 10-16) is file I/O. The required roles and the server map are parameters.
- The HTTP request, the UTF-8 and base64 decoding and the outer envelope JSON decoding in `checkunban` are left out. An exception from any of them would escape the handler. `BanFetch` supplies the status code and the decoded `content` field, or its absence.
- JSON parsing itself is the `JsonParser` parameter. JSON numbers are integers only: floats are not modelled.
- Json.PyRepr (used for `str()` of non-string JSON values) always quotes strings with single quotes. The model does not reproduce Python's switch to double quotes or its escaping of quotes, backslashes and non-printable characters.
- Json objects are Python dicts. Their entries are taken as having distinct keys, as `json.loads` produces them, and `Lookup` uses the first matching entry.
- Server descriptors always carry `ip`, `port` and `password`. A configured entry that is an empty dict (which Python would report as "not found") or lacks one of those keys (a `KeyError`) is not modelled.
- Concurrency between invocations is not modelled. Each handler is one sequential run. The source shares no mutable state between invocations.
