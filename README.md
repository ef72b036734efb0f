# Synchronised YouTube player: client logic and notification hub

A Dafny model of the two sequential parts of a shared YouTube viewing
application. Clients keep a player state (the video, the last play/pause
event, a playlist) and send it to a SignalR hub, which relays it to every
client and keeps a list of the users who registered.

- `wrappers.dfy` — `Option`, for TypeScript's optional fields and C#'s nullable references.
- `player.dfy` (module `Player`) — the client's player state and its pure
  logic: deriving the embed URL of a YouTube link, the play/pause toggle with
  its connection guard, and the handler for a broadcast player state.
- `playlist.dfy` (module `Playlist`) — the playlist: the item a new link
  becomes, removal by position, selecting the item that plays, and finding the
  embed URL of the item that is playing.
- `app.dfy` (module `AppComponent`) — the client component as a class `App`
  whose handlers update its state in place: appending to the playlist,
  rewriting every item's "playing" flag in a loop, and logging the commands
  posted to the player and the states sent to the hub.
- `hub.dfy` (module `Hub`) — the server's data types and the
  `NotificationHub` as a class holding the process-wide list of connected
  users and an outbox of broadcasts to all clients.

The browser's URL parser, JSON encoding and decoding, and the SignalR
transport are not modelled: the parsed URL, the decoded message and the
decoded user are inputs, and a send is an entry appended to a log.

The hub does not key users by connection, does not remove anyone on
disconnect and does not de-duplicate. Its blank-payload guard tests the raw
text, so the payload "null" appends a null entry. A client sends that payload
when it registers before its own user is set. The client's embed URL ends in
a stray double quote, and a watch link without a `v` parameter embeds the
video id `null`. Both are modelled as written.

## Model

| member | source | states |
|---|---|---|
| `Player.DropFirst` | frontend/src/App.tsx:169 | `slice(1)`: the empty string stays empty, otherwise the first character followed by the result is the input |
| `Player.GetEmbedUrl` | frontend/src/App.tsx:148-178 | rejected exactly when the link is empty, unparsable, or its host is not exactly youtu.be or www.youtube.com; "Invalid URL" for the first two, "Link is not from YouTube" for the third; an accepted link yields a non-empty embed URL from which its video id reads back |
| `Player.EmbedUrlRoundTrip` | frontend/src/App.tsx:172 | the video id reads back from the embed URL built for it (prefix, id, fixed query with its trailing quote) |
| `Player.EmbedUrlForInjective` | frontend/src/App.tsx:172 | different video ids give different embed URLs |
| `Player.ShortLinkExample` | frontend/src/App.tsx:167-169 | a youtu.be link embeds its path without the leading slash |
| `Player.MissingVideoParameterExample` | frontend/src/App.tsx:170-172 | a www.youtube.com link without `v` embeds the id `null` |
| `Player.OnControlVideoPlayBack` | frontend/src/App.tsx:180-204 | the next event is pause exactly when the current one is play, and play otherwise; the other fields are unchanged; the command is pauseVideo or playVideo to match; the new state is sent exactly when the connection is Connected (guard at 129-137) |
| `Player.ToggleTwiceRestores` | frontend/src/App.tsx:183-188 | two presses restore a playing or paused state |
| `Player.OnPlayerStateBroadcast` | frontend/src/App.tsx:91-124 | the local state becomes the message whatever its kind; play issues playVideo, pause issues pauseVideo, every other kind issues no command |
| `Player.ToggleIsReplayedByReceivers` | frontend/src/App.tsx:98-123 | a toggle sent over a connected hub makes every receiver, the sender's echo included, take the sender's new state and issue the sender's command |
| `Playlist.NewItem` | frontend/src/App.tsx:230-236 | the appended item carries the link and its embed URL, empty title and thumbnail, and is not playing |
| `Playlist.RemoveAt` | frontend/src/App.tsx:309-313 | the length drops by one when the index is in range and is unchanged otherwise; items before the index stay, items after it move up by one |
| `Playlist.RemoveAtDropsExactlyOne` | frontend/src/App.tsx:310-312 | in range, the result together with the removed item is a permutation of the playlist |
| `Playlist.RemoveAtIsSliceConcat` | frontend/src/App.tsx:310-312 | in range, the result is the playlist before the index followed by the playlist after it |
| `Playlist.RemoveAtOutOfRange` | frontend/src/App.tsx:310-312 | an index past the end removes nothing |
| `Playlist.MarkSelected` | frontend/src/App.tsx:324-330 | same length; an item is flagged as playing exactly when its url is the selected url, so duplicates are all flagged; url, embed URL, title and thumbnail unchanged |
| `Playlist.SelectItem` | frontend/src/App.tsx:321-334 | the event becomes addItemToPlaylist, the playlist is the marked one, the URLs are unchanged |
| `Playlist.Flagged` | frontend/src/App.tsx:244-246 | the filter keeps every flagged item of the playlist and nothing else |
| `Playlist.FlaggedEmptyIffNoneFlagged` | frontend/src/App.tsx:244-246 | the filter is empty exactly when no item is flagged |
| `Playlist.FlaggedStartsWithFirst` | frontend/src/App.tsx:244-246 | a non-empty filter starts with the first flagged item |
| `Playlist.GetCurrentlyPlaying` | frontend/src/App.tsx:243-253 | a result is non-empty and is the embed URL of the first flagged item; nothing is returned when there is no playlist, no flagged item, or that item's embed URL is empty |
| `Playlist.SelectedItemIsPlaying` | frontend/src/App.tsx:321-334 | after selecting an item, the player shows the embed URL of the first item sharing its url, or nothing when that URL is empty |
| `AppComponent.App.constructor` | frontend/src/App.tsx:62-74 | the component starts with an empty playlist, event none, no error and an empty link |
| `AppComponent.App.OnAddUrlToPlaylistClicked` | frontend/src/App.tsx:221-241 | a rejected link shows its error and leaves state and input alone; an accepted one appends exactly one new item at the end (earlier items untouched, no playlist stays no playlist), clears the error and empties the input |
| `AppComponent.App.RemoveItem` | frontend/src/App.tsx:307-314 | only the playlist changes, to the playlist without the item at the index |
| `AppComponent.App.SelectItem` | frontend/src/App.tsx:320-335 | the loop rewrites every item's flag in place; afterwards the state is the selected state of the old one and nothing else changes |
| `AppComponent.App.OnControlVideoPlayBack` | frontend/src/App.tsx:180-204 | the state becomes the toggled one, its command is posted, and the new state is sent only over a connected hub |
| `AppComponent.App.OnPlayerStateBroadcast` | frontend/src/App.tsx:91-124 | the state becomes the message and the matching command, if any, is posted; nothing is sent |
| `Hub.IsNullOrWhiteSpace` | Backend/Backend/Program.cs:115 | true exactly when every character is .NET white space, so the empty string included |
| `Hub.NullPayloadPassesGuard` | Backend/Backend/Program.cs:115 | the payload "null" is not blank |
| `Hub.NotificationHub.constructor` | Backend/Backend/Program.cs:96 | no connected users and no broadcasts; establishes the invariant `Valid`: every roster broadcast so far is a prefix of every later one and of the current list, and every broadcast's event name matches its payload |
| `Hub.NotificationHub.ServerSendRegisterNewUser` | Backend/Backend/Program.cs:111-125 | an undecodable payload changes nothing; otherwise a non-blank payload appends its decoded user (duplicate or null alike) at the end, a blank one appends nothing, and exactly one ClientAllOnNewUserConnected broadcast carries the whole list after the append; `Valid` is preserved |
| `Hub.NotificationHub.ServerUpdatePlayerState` | Backend/Backend/Program.cs:128-133 | exactly one ClientsAllUpdatePlayerState broadcast carrying the message unchanged; the list is untouched; `Valid` is preserved |
| `Hub.NotificationHub.OnConnectedAsync` | Backend/Backend/Program.cs:136-140 | the list and the outbox are unchanged |
| `Hub.NotificationHub.OnDisconnectedAsync` | Backend/Backend/Program.cs:143-147 | the list and the outbox are unchanged, so a departed user stays listed |
| `Hub.ListedUserStaysListed` | Backend/Backend/Program.cs:111-147 | under `Valid`, a user listed in a roster broadcast keeps its place in every later roster broadcast and in the current list, whatever connects or disconnects in between |
| `Hub.RegisterTwiceScenario` | Backend/Backend/Program.cs:113-118 | registering "null" and then the same user twice, then a disconnect, leaves a null entry and two copies of the user |

## Left out

- SignalR transport: building and starting the connection, `connection.on`/`invoke`, and `Clients.All.SendAsync` are network I/O. A send is an entry appended to `App.sent` or `NotificationHub.outbox`. Delivery, its failure and the ordering between clients are not modelled.
- JSON: `JSON.stringify`/`JSON.parse` and `JsonConvert` are library code. Decoded values are inputs, the roster broadcast carries the list rather than its JSON text, and the relayed player state is an opaque string.
- URL parsing: the WHATWG `URL` parser and `URLSearchParams` are browser code. The parsed host name, path and `v` parameter are an input, `None` when the parser throws.
- The iframe: `postMessage` is a command appended to `App.commands`. Whether the iframe exists to receive it, which depends on rendering, is not modelled.
- React: rendering, hooks, batching of state updates and stale closures are not modelled. Each handler is one sequential step in which the last state update wins. The playlist items are values, so the sharing of item objects between renders is not captured.
- `crypto.randomUUID`, `setCurrenUserInformation`, the roster handler `ClientAllOnNewUserConnected` and the client's registration call at mount (frontend/src/App.tsx:81-89, 140-146, 206-208) only store or send values that come from outside. The payload "null" they produce is covered by `Hub.RegisterTwiceScenario`.
- Logging on both sides, the ASP.NET host configuration (Backend/Backend/Program.cs:5-50) and Backend/Backend/Controllers/StatusController.cs, which only logs.
- Concurrent calls into the hub against the unsynchronised static list: hub calls are modelled one after another.
- A null `clientUserInfo` argument is not modelled, because the client always sends a string. The deserializer would throw before the guard, as for an undecodable payload.
