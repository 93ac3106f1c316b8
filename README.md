# Party-game lobby registry

This project models the server of a multiplayer party game. The server keeps
its live lobbies in one in-memory map, `lobbies`, from a four-character lobby code to a
lobby record. A record holds the roster (`players`, each with a socket id and a
display name), an always-empty `chains` list, the `phase` (always `"waiting"`)
and a `questions` list. The server creates that list on the first submitted question.
Four socket event handlers change the map. Each runs to completion before the
next event is taken:

- **createLobby** binds a code to a new lobby whose only player is the creator.
- **joinLobby** appends the joining player to the roster of a known lobby and
  broadcasts the roster. An unknown code is silently ignored.
- **submitQuestion** appends a question to a known lobby, creating the list if
  needed, then runs the phase-completion check. An unknown code is silently ignored.
  The handler never reads the sender's socket id, so any connection can add a
  question to any known lobby, including one it is not a member of.
- **disconnect** filters the socket out of every lobby's roster and deletes every
  lobby whose roster becomes empty.

The completion check (`checkPhaseCompletion`) asks whether every player passes
a callback. The callback ignores the player and compares the number of questions
with the number of players.

The model has two modules:

- `Lobbies` (`lobbies.dfy`) holds the records, the roster filter `RemovePlayer` and
  the completion predicate `PhaseComplete`. Both are pure functions.
- `Server` (`server.dfy`) states each handler as a function from the old map to
  the new one (`Created`, `Joined`, `Submitted`, `Swept`). It also holds the
  class `Registry`, whose field `lobbies` is the map. The methods of `Registry` are the
  handler bodies, and each is proved to end in the state its function describes.
  `Disconnect` is a loop over the lobbies that are live when it starts. This matches
  `Map.forEach`, which visits each entry once. The loop deletes only the entry it
  is visiting.

The handlers make none of the following checks or steps, and the model keeps
them that way:

- There is no duplicate-player check. `JoinAddsOneEntry` shows that a socket
  id already in the roster gets a second entry.
- Joins are not restricted by phase.
- Lobby codes are not checked for collision. `Created` replaces a live lobby
  with the same code.
- Unknown codes do not produce errors. The map is left unchanged.
- Completion counts questions, not distinct submitters (`OneSubmitterCompletes`).
- A disconnect does not re-run the completion check.
- The phase never leaves `"waiting"`.

## Model

| member | source | states |
|---|---|---|
| `Lobbies.NewLobby` | server.js:20-24 | a new record holds exactly the creator (socket id and name), is waiting, has no chains and no questions, and its phase is not complete |
| `Lobbies.EnoughQuestions` | server.js:60 | the callback passed to `every` holds only when the question list exists and is at least as long as the roster; without a list (`undefined >= n`) it is false |
| `Lobbies.EveryPlayer` | server.js:60 | `every` over the roster: true for an empty roster, and on a non-empty roster true only when the callback holds |
| `Lobbies.PhaseComplete` | server.js:58-63 | the test of `checkPhaseCompletion`: every roster entry passes the callback; it holds for an empty roster and implies at least as many questions as players (`PhaseCompleteIff` gives the converse) |
| `Lobbies.RemovePlayer` | server.js:52 | the filtered roster holds no entry of the socket id, only entries of the old roster, is the old roster when the id was absent, and is empty exactly when every old entry had that id |
| `Lobbies.RemovePlayerKeepsOrder` | server.js:52 | the filtered roster is a subsequence of the old one: the remaining players keep their relative order |
| `Lobbies.RemovePlayerKeepsOthers` | server.js:52 | filtering drops every entry of the socket id and keeps every entry of any other player, counted with multiplicity |
| `Lobbies.EveryPlayerConstant` | server.js:60 | `every` with a callback that ignores its player is true exactly for an empty roster or when the callback's comparison holds |
| `Lobbies.PhaseCompleteIff` | server.js:58-63 | completion holds exactly when the question count is at least the player count; this is vacuously true for an empty roster and false for a non-empty lobby without a question list |
| `Server.Created` | server.js:18-24 | after create, the code is bound to a lobby with exactly the creator as player, no chains, phase "waiting" and no question list, whatever was bound before; every other code is unchanged |
| `Server.Joined` | server.js:30-33 | join with an unknown code leaves the map unchanged; with a known code, exactly one player is appended at the end of the roster, earlier players keep their places, and the other fields and other lobbies are unchanged |
| `Server.Submitted` | server.js:40-44 | submit with an unknown code leaves the map unchanged; with a known code, the question list exists afterwards, ends with the question, keeps the earlier questions and grows by one; players, chains, phase and other lobbies are unchanged |
| `Server.Swept` | server.js:50-55 | after a disconnect, a lobby survives exactly when it had a player with another socket id; no surviving lobby holds the socket id and none is empty; a non-empty lobby without that id is kept unchanged |
| `Server.CreatedKeepsWellFormed` | server.js:18-24 | create keeps every lobby in the map non-empty, in phase "waiting" and without chains |
| `Server.JoinedKeepsWellFormed` | server.js:30-33 | join keeps every lobby in the map non-empty, in phase "waiting" and without chains |
| `Server.SubmittedKeepsWellFormed` | server.js:40-44 | submit keeps every lobby in the map non-empty, in phase "waiting" and without chains |
| `Server.SweptKeepsWellFormed` | server.js:50-55 | disconnect keeps every lobby in the map non-empty, in phase "waiting" and without chains |
| `Server.SweptKeepsOrder` | server.js:51-52 | after a disconnect, each surviving roster is a subsequence of its old roster |
| `Server.SweptKeepsOthers` | server.js:51-52 | after a disconnect, a surviving lobby keeps every entry of every other player |
| `Server.JoinAddsOneEntry` | server.js:33 | joining adds exactly one entry of the joining socket id, even when the id is already in the roster |
| `Server.SubmitCompletesIff` | server.js:44-45 | after a question to a known lobby, the completion check fires exactly when the previous question count plus one reaches the player count |
| `Server.OneSubmitterCompletes` | server.js:60 | in a two-player lobby, one question does not complete the phase, but a second question from the same player does |
| `Server.Registry.constructor` | server.js:10 | the registry starts with no lobbies |
| `Server.Registry.CreateLobby` | server.js:18-27 | the new map is `Created` of the old one for the given code, creator id and name, and the map stays well formed |
| `Server.Registry.JoinLobby` | server.js:30-37 | the new map is `Joined` of the old one; the returned broadcast is the new roster for a known code and nothing for an unknown one |
| `Server.Registry.SubmitQuestion` | server.js:40-47 | the new map is `Submitted` of the old one; the result says whether the answer phase would be started: the code is known and its old question count plus one is at least its player count |
| `Server.Registry.Disconnect` | server.js:50-55 | the loop over the live lobbies ends with `Swept` of the old map: no lobby holds the socket id, empty lobbies are deleted, and the map stays well formed |

## Left out

- Express, socket.io, static file serving and `server.listen` (server.js:2-7, 13, 65) are transport and hosting code in foreign libraries.
- `socket.join`, `socket.emit("lobbyCreated")` and the room broadcast (server.js:25-26, 34-35) are not modelled. The only output kept is the roster that `JoinLobby` returns for the `updatePlayers` broadcast.
- The random lobby code of server.js:19 is a parameter of `CreateLobby`. Its four-character, upper-case form is not modelled.
- `startAnswerPhase` (server.js:61) is called but never defined in the file. Only the decision to call it is modelled, as the `advanced` result of `SubmitQuestion`. The `ReferenceError` that the call raises is not modelled: nothing at server.js:45 or server.js:61 catches it, so it escapes the handler after the question has been appended, and whether the program then keeps the state the model continues from depends on how the host treats an uncaught error in a socket handler.
- Event payloads are taken as strings. JavaScript would accept any value as a code, name or question, including `undefined`. The model does not cover that case.
- The elements of `chains` are typed as strings. The server never puts anything in that list.
- Lobby records are objects that the handlers mutate in place. The model stores them as values in the map. This is faithful because no two map entries share a record.
- The HTML page and `package.json` pasted after the server code (server.js:66-159) are user interface and configuration.
