/**
 * The player state shared between clients of the synchronised YouTube player,
 * and the pure parts of the client's logic (frontend/src/App.tsx): deriving the
 * embeddable URL of a YouTube link, toggling play/pause, and handling a player
 * state broadcast by the hub.
 */
module Player {
  import opened Wrappers

  /** The kinds of player event. `NoEvent` is the wire text "none"; every other
      constructor is the wire text with its first letter in lower case. */
  datatype EventType =
    | NoEvent | Initial | Play | Pause | Stop | Seek | Volume | Mute | Unmute
    | AddItemToPlaylist | RemoveItemFromPlaylist | ChangeCurrentPlayingItem

  datatype PlaylistItem = PlaylistItem(
    url: string,
    embeddedUrl: string,
    title: string,
    thumbnail: string,
    isCurrentlyPlaying: bool)

  /** `originalUrl` and `playlistItems` are optional fields of the record. */
  datatype PlayerState = PlayerState(
    originalUrl: Option<string>,
    embedUrl: string,
    eventType: EventType,
    playlistItems: Option<seq<PlaylistItem>>)

  /** The state the component starts with. */
  const InitialState := PlayerState(Some(""), "", NoEvent, Some([]))

  /** The commands posted to the embedded player's iframe. */
  datatype IframeCommand = PlayVideo | PauseVideo

  /** The states of the client's hub connection. */
  datatype HubConnectionState = Disconnected | Connecting | Connected | Disconnecting | Reconnecting

  // ---------------------------------------------------------------------------
  // Embed-URL derivation
  // ---------------------------------------------------------------------------

  /** What the browser's URL parser yields for a link: its host name, its path
      and the value of its `v` query parameter, if any. */
  datatype ParsedUrl = ParsedUrl(hostname: string, pathname: string, v: Option<string>)

  /** Either the embed URL, or the error message shown to the user. */
  datatype EmbedResult = Embed(url: string) | Rejected(message: string)

  const InvalidUrl := "Invalid URL"
  const NotFromYouTube := "Link is not from YouTube"
  const EmbedPrefix := "https://www.youtube.com/embed/"
  /** The fixed query of every embed URL; it ends in a stray double quote. */
  const EmbedQuery := "?enablejsapi=1&html5=1&autoplay=1&muted=1&modestbranding=1\""

  predicate IsYouTubeHost(hostname: string) {
    hostname == "youtu.be" || hostname == "www.youtube.com"
  }

  /** JavaScript's `s.slice(1)`: everything after the first character. */
  function DropFirst(s: string): (r: string)
    ensures s == [] ==> r == []
    ensures s != [] ==> [s[0]] + r == s
  {
    if s == [] then [] else s[1..]
  }

  /** The video id of an accepted link: the path without its leading character
      on `youtu.be`, otherwise the `v` parameter, a missing one rendered as the
      text "null" by the template literal. */
  function VideoId(u: ParsedUrl): string {
    if u.hostname == "youtu.be" then DropFirst(u.pathname)
    else match u.v
      case Some(id) => id
      case None => "null"
  }

  function EmbedUrlFor(id: string): string {
    EmbedPrefix + id + EmbedQuery
  }

  /** Reads the video id back out of an embed URL; the inverse of EmbedUrlFor. */
  function VideoIdOf(embedUrl: string): Option<string> {
    var n, p, q := |embedUrl|, |EmbedPrefix|, |EmbedQuery|;
    if n >= p + q && embedUrl[..p] == EmbedPrefix && embedUrl[n - q..] == EmbedQuery
    then Some(embedUrl[p..n - q])
    else None
  }

  lemma EmbedUrlRoundTrip(id: string)
    ensures VideoIdOf(EmbedUrlFor(id)) == Some(id)
  {
  }

  lemma EmbedUrlForInjective(id1: string, id2: string)
    requires EmbedUrlFor(id1) == EmbedUrlFor(id2)
    ensures id1 == id2
  {
    EmbedUrlRoundTrip(id1);
    EmbedUrlRoundTrip(id2);
  }

  /**
   * `getEmbedUrl(value)`: `parsed` is what the URL parser makes of `value`,
   * `None` when it throws. An empty or unparsable link is an "Invalid URL", a
   * host other than exactly youtu.be or www.youtube.com is "not from YouTube";
   * otherwise the result is the embed URL carrying the link's video id.
   */
  function GetEmbedUrl(value: string, parsed: Option<ParsedUrl>): (r: EmbedResult)
    ensures r.Rejected? <==> value == [] || parsed.None? || !IsYouTubeHost(parsed.value.hostname)
    ensures r.Rejected? && (value == [] || parsed.None?) ==> r.message == InvalidUrl
    ensures r.Rejected? && value != [] && parsed.Some? ==> r.message == NotFromYouTube
    ensures r.Embed? ==> r.url != [] && VideoIdOf(r.url) == Some(VideoId(parsed.value))
  {
    if value == [] then Rejected(InvalidUrl)
    else match parsed
      case None => Rejected(InvalidUrl)
      case Some(u) =>
        if !IsYouTubeHost(u.hostname) then Rejected(NotFromYouTube)
        else
          EmbedUrlRoundTrip(VideoId(u));
          Embed(EmbedUrlFor(VideoId(u)))
  }

  /** A short link: https://youtu.be/abc embeds video "abc". */
  lemma ShortLinkExample()
    ensures GetEmbedUrl("https://youtu.be/abc", Some(ParsedUrl("youtu.be", "/abc", None)))
         == Embed(EmbedUrlFor("abc"))
  {
  }

  /** A watch link without `v` embeds the video called "null". */
  lemma MissingVideoParameterExample()
    ensures GetEmbedUrl("https://www.youtube.com/watch", Some(ParsedUrl("www.youtube.com", "/watch", None)))
         == Embed(EmbedUrlFor("null"))
  {
  }

  // ---------------------------------------------------------------------------
  // Play/pause toggle
  // ---------------------------------------------------------------------------

  /** What one press of the play/pause button does: the next local state, the
      command posted to the player, and the state sent to the hub, if any. */
  datatype PlaybackToggle = PlaybackToggle(next: PlayerState, command: IframeCommand, sent: Option<PlayerState>)

  /** The connection guard of `ServerUpdatePlayerState`: a state is sent only
      over a connected hub connection. */
  predicate CanSend(connection: HubConnectionState) {
    connection == Connected
  }

  function NextEventType(current: EventType): EventType {
    if current == Play then Pause else Play
  }

  /** `onControlVideoPlayBack`: play becomes pause, anything else becomes play. */
  function OnControlVideoPlayBack(s: PlayerState, connection: HubConnectionState): (t: PlaybackToggle)
    ensures t.next.eventType == Pause <==> s.eventType == Play
    ensures t.next.eventType == Play <==> s.eventType != Play
    ensures t.next.originalUrl == s.originalUrl && t.next.embedUrl == s.embedUrl
    ensures t.next.playlistItems == s.playlistItems
    ensures t.command == PauseVideo <==> t.next.eventType == Pause
    ensures t.command == PlayVideo <==> t.next.eventType == Play
    ensures t.sent.Some? <==> CanSend(connection)
    ensures t.sent.Some? ==> t.sent.value == t.next
  {
    var next := s.(eventType := NextEventType(s.eventType));
    var command := if s.eventType == Play then PauseVideo else PlayVideo;
    PlaybackToggle(next, command, if CanSend(connection) then Some(next) else None)
  }

  /** Pressing the button twice restores a playing or paused state. */
  lemma ToggleTwiceRestores(s: PlayerState, c1: HubConnectionState, c2: HubConnectionState)
    requires s.eventType == Play || s.eventType == Pause
    ensures OnControlVideoPlayBack(OnControlVideoPlayBack(s, c1).next, c2).next == s
  {
  }

  // ---------------------------------------------------------------------------
  // Incoming player-state broadcast
  // ---------------------------------------------------------------------------

  /** What the client does on a player-state broadcast: its next local state
      and the command posted to the player, if any. */
  datatype BroadcastEffect = BroadcastEffect(next: PlayerState, command: Option<IframeCommand>)

  /**
   * The `ClientsAllUpdatePlayerState` handler, given the decoded message. The
   * message replaces the local state whatever its kind (the state set in the
   * `changeCurrentPlayingItem` branch is overwritten by the final update);
   * "play" and "pause" also drive the player.
   */
  function OnPlayerStateBroadcast(message: PlayerState): (e: BroadcastEffect)
    ensures e.next == message
    ensures e.command == Some(PlayVideo) <==> message.eventType == Play
    ensures e.command == Some(PauseVideo) <==> message.eventType == Pause
    ensures e.command.None? <==> message.eventType != Play && message.eventType != Pause
  {
    var command := match message.eventType
      case Play => Some(PlayVideo)
      case Pause => Some(PauseVideo)
      case _ => None;
    BroadcastEffect(message, command)
  }

  /**
   * A toggle sent over a connected hub reaches every client, the sender's own
   * echo included, as the same state and the same player command: after the
   * relay every client's local state equals the sender's.
   */
  lemma ToggleIsReplayedByReceivers(s: PlayerState)
    ensures var t := OnControlVideoPlayBack(s, Connected);
            t.sent.Some? && OnPlayerStateBroadcast(t.sent.value) == BroadcastEffect(t.next, Some(t.command))
  {
  }
}
