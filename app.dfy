/**
 * The client component of frontend/src/App.tsx as an object: its player
 * state, the error message and link shown in the form, the commands it has
 * posted to the embedded player, and the states it has sent to the hub.
 * Each handler is one sequential step; where React would batch several state
 * updates, the last one wins.
 */
module AppComponent {
  import opened Wrappers
  import opened Player
  import opened Playlist

  class App {
    var playerState: PlayerState
    var errorMessage: string
    var newLink: string
    /** Commands posted to the player iframe, oldest first. */
    var commands: seq<IframeCommand>
    /** States handed to the hub's `ServerUpdatePlayerState`, oldest first. */
    var sent: seq<PlayerState>

    constructor ()
      ensures playerState == InitialState && errorMessage == "" && newLink == ""
      ensures commands == [] && sent == []
    {
      playerState := InitialState;
      errorMessage, newLink := "", "";
      commands, sent := [], [];
    }

    /**
     * `onAddUrlToPlaylistClicked(url)`: a link whose embed URL cannot be
     * derived leaves the playlist alone and shows why; an accepted one is
     * pushed onto the end of the playlist (when there is one), clears the error
     * and empties the input.
     */
    method OnAddUrlToPlaylistClicked(url: string, parsed: Option<ParsedUrl>)
      modifies this
      ensures commands == old(commands) && sent == old(sent)
      ensures GetEmbedUrl(url, parsed).Rejected? ==>
                && errorMessage == GetEmbedUrl(url, parsed).message
                && playerState == old(playerState) && newLink == old(newLink)
      ensures GetEmbedUrl(url, parsed).Embed? ==>
                && errorMessage == "" && newLink == ""
                && playerState.originalUrl == old(playerState).originalUrl
                && playerState.embedUrl == old(playerState).embedUrl
                && playerState.eventType == old(playerState).eventType
                && playerState.playlistItems.Some? == old(playerState).playlistItems.Some?
      ensures GetEmbedUrl(url, parsed).Embed? && old(playerState).playlistItems.Some? ==>
                playerState.playlistItems.value
                == old(playerState).playlistItems.value + [NewItem(url, GetEmbedUrl(url, parsed).url)]
    {
      errorMessage := "";
      var embed := GetEmbedUrl(url, parsed);
      if embed.Rejected? {
        errorMessage := embed.message;
        return;
      }
      match playerState.playlistItems {
        case Some(items) =>
          playerState := playerState.(playlistItems := Some(items + [NewItem(url, embed.url)]));
        case None =>
      }
      newLink := "";
    }

    /** The remove button of item `index`. */
    method RemoveItem(index: nat)
      modifies this
      ensures errorMessage == old(errorMessage) && newLink == old(newLink)
      ensures commands == old(commands) && sent == old(sent)
      ensures playerState == old(playerState).(playlistItems :=
                match old(playerState).playlistItems
                case None => None
                case Some(items) => Some(RemoveAt(items, index)))
    {
      match playerState.playlistItems {
        case Some(items) =>
          playerState := playerState.(playlistItems := Some(RemoveAt(items, index)));
        case None =>
      }
    }

    /**
     * The select button of item `index` (only rendered for an item of the
     * playlist): rewrites the flag of every item, in place, then records the
     * event.
     */
    method SelectItem(index: nat)
      requires playerState.playlistItems.Some? && index < |playerState.playlistItems.value|
      modifies this
      ensures errorMessage == old(errorMessage) && newLink == old(newLink)
      ensures commands == old(commands) && sent == old(sent)
      ensures playerState == Playlist.SelectItem(old(playerState), index)
    {
      var items := playerState.playlistItems.value;
      ghost var original := items;
      var selectedUrl := items[index].url;
      for i := 0 to |items|
        invariant |items| == |original|
        invariant forall k :: 0 <= k < i ==> items[k] == original[k].(isCurrentlyPlaying := original[k].url == selectedUrl)
        invariant forall k :: i <= k < |items| ==> items[k] == original[k]
      {
        if items[i].url == selectedUrl {
          items := items[i := items[i].(isCurrentlyPlaying := true)];
        } else {
          items := items[i := items[i].(isCurrentlyPlaying := false)];
        }
      }
      assert items == MarkSelected(original, selectedUrl);
      playerState := playerState.(eventType := AddItemToPlaylist, playlistItems := Some(items));
    }

    /** The play/pause button, with the hub connection in state `connection`. */
    method OnControlVideoPlayBack(connection: HubConnectionState)
      modifies this
      ensures errorMessage == old(errorMessage) && newLink == old(newLink)
      ensures var t := Player.OnControlVideoPlayBack(old(playerState), connection);
              && playerState == t.next
              && commands == old(commands) + [t.command]
              && sent == old(sent) + (if CanSend(connection) then [t.next] else [])
    {
      var t := Player.OnControlVideoPlayBack(playerState, connection);
      commands := commands + [t.command];
      playerState := t.next;
      if t.sent.Some? {
        sent := sent + [t.sent.value];
      }
    }

    /** A `ClientsAllUpdatePlayerState` broadcast carrying `message`. */
    method OnPlayerStateBroadcast(message: PlayerState)
      modifies this
      ensures errorMessage == old(errorMessage) && newLink == old(newLink) && sent == old(sent)
      ensures playerState == message
      ensures commands == old(commands) + match Player.OnPlayerStateBroadcast(message).command
                                          case Some(c) => [c]
                                          case None => []
    {
      var e := Player.OnPlayerStateBroadcast(message);
      match e.command {
        case Some(c) => commands := commands + [c];
        case None =>
      }
      playerState := e.next;
    }
  }
}
