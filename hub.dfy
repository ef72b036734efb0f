/**
 * The server side (Backend/Backend/Program.cs): the data types exchanged with
 * the clients, and the `NotificationHub`, which keeps the process-wide list of
 * connected users and broadcasts to every client. A broadcast is an entry
 * appended to the hub's outbox.
 */
module Hub {
  import opened Wrappers

  datatype UserRole = User | Admin

  /** The server's own event kinds; `NoEvent` is the enum member `None`. The
      hub relays player states as text and never decodes them into this type. */
  datatype EventTypes = NoEvent | ChangeVideoUrl | Play | Pause | Stop | Seek | Volume | Mute | Unmute

  /** A GUID, as its 16 bytes. */
  type Guid = bytes: seq<bv8> | |bytes| == 16 witness seq(16, _ => 0 as bv8)

  /** `Name` is nullable. */
  datatype UserDto = UserDto(userId: Guid, name: Option<string>, role: UserRole)

  datatype PlayerState = PlayerState(originalUrl: string, embedUrl: string, eventType: EventTypes)

  /** What the JSON deserializer makes of a registration payload: a user, or
      `null` (for the text "null", an empty or a blank payload), or an
      exception for text that is not JSON of a user. */
  datatype UserPayload = Decoded(user: Option<UserDto>) | Unparsable

  const ClientAllOnNewUserConnected := "ClientAllOnNewUserConnected"
  const ClientsAllUpdatePlayerState := "ClientsAllUpdatePlayerState"

  /** The payload of a broadcast: the connected users (serialized to JSON on
      the wire), or a player-state message relayed as received. */
  datatype Payload = Roster(users: seq<Option<UserDto>>) | Text(message: string)

  datatype Broadcast = Broadcast(eventName: string, payload: Payload)

  /** .NET's `char.IsWhiteSpace`: the Unicode space, line and paragraph
      separators, the controls U+0009 to U+000D, and U+0085. */
  predicate IsWhiteSpace(c: char) {
    || '\U{0009}' <= c <= '\U{000D}' || c == '\U{0020}' || c == '\U{0085}' || c == '\U{00A0}'
    || c == '\U{1680}' || '\U{2000}' <= c <= '\U{200A}' || c == '\U{2028}' || c == '\U{2029}'
    || c == '\U{202F}' || c == '\U{205F}' || c == '\U{3000}'
  }

  /** `string.IsNullOrWhiteSpace` on a non-null string: empty, or white space only. */
  function IsNullOrWhiteSpace(s: string): (r: bool)
    ensures r <==> forall i :: 0 <= i < |s| ==> IsWhiteSpace(s[i])
  {
    if s == [] then true
    else IsWhiteSpace(s[0]) && IsNullOrWhiteSpace(s[1..])
  }

  /** The payload "null", which a client sends before it knows its own user,
      passes the guard. */
  lemma NullPayloadPassesGuard()
    ensures !IsNullOrWhiteSpace("null")
  {
  }

  /**
   * The hub. `connectedUsers` is the process-wide `AppState.ConnectedUsers`
   * list, which holds a null entry for every registration whose payload
   * decodes to null; `outbox` is every broadcast sent to all clients, oldest
   * first.
   */
  class NotificationHub {
    var connectedUsers: seq<Option<UserDto>>
    var outbox: seq<Broadcast>

    /** Every roster broadcast so far is a prefix of every later one and of the
        current list (no one is ever removed), and each broadcast's event name
        matches its payload. */
    ghost predicate Valid()
      reads this
    {
      forall i :: 0 <= i < |outbox| ==>
        && (outbox[i].payload.Roster? ==> outbox[i].payload.users <= connectedUsers)
        && (forall j :: i < j < |outbox| && outbox[i].payload.Roster? && outbox[j].payload.Roster? ==>
              outbox[i].payload.users <= outbox[j].payload.users)
        && outbox[i].eventName == if outbox[i].payload.Roster? then ClientAllOnNewUserConnected
                                  else ClientsAllUpdatePlayerState
    }

    constructor ()
      ensures Valid() && connectedUsers == [] && outbox == []
    {
      connectedUsers, outbox := [], [];
    }

    /**
     * `ServerSendRegisterNewUser(clientUserInfo)`, with `decoded` what the
     * deserializer makes of `clientUserInfo`. A payload that does not decode
     * aborts the call with nothing changed (`completed` is false). Otherwise a
     * payload that is not blank appends the decoded user, duplicate or null
     * alike, at the end of the list, and then the whole list is broadcast.
     */
    method ServerSendRegisterNewUser(clientUserInfo: string, decoded: UserPayload) returns (completed: bool)
      requires Valid()
      modifies this
      ensures completed <==> decoded.Decoded?
      ensures !completed ==> connectedUsers == old(connectedUsers) && outbox == old(outbox)
      ensures completed ==>
                connectedUsers == old(connectedUsers)
                                  + (if IsNullOrWhiteSpace(clientUserInfo) then [] else [decoded.user])
      ensures completed ==>
                outbox == old(outbox) + [Broadcast(ClientAllOnNewUserConnected, Roster(connectedUsers))]
      ensures Valid()
    {
      if decoded.Unparsable? {
        return false;
      }
      if !IsNullOrWhiteSpace(clientUserInfo) {
        connectedUsers := connectedUsers + [decoded.user];
      }
      outbox := outbox + [Broadcast(ClientAllOnNewUserConnected, Roster(connectedUsers))];
      completed := true;
    }

    /** `ServerUpdatePlayerState(message)`: relays the message, unchanged, to
        every client. */
    method ServerUpdatePlayerState(message: string)
      requires Valid()
      modifies this
      ensures connectedUsers == old(connectedUsers)
      ensures outbox == old(outbox) + [Broadcast(ClientsAllUpdatePlayerState, Text(message))]
      ensures Valid()
    {
      outbox := outbox + [Broadcast(ClientsAllUpdatePlayerState, Text(message))];
    }

    /** `OnConnectedAsync`: logs only. */
    method OnConnectedAsync()
      ensures connectedUsers == old(connectedUsers) && outbox == old(outbox)
    {
    }

    /** `OnDisconnectedAsync`: logs only; the departed user stays listed. */
    method OnDisconnectedAsync(exception: Option<string>)
      ensures connectedUsers == old(connectedUsers) && outbox == old(outbox)
    {
    }
  }

  /**
   * A user listed at position `k` of a roster broadcast is listed at the same
   * position in every later roster broadcast and in the current list: a user
   * who disconnects is never dropped.
   */
  lemma ListedUserStaysListed(hub: NotificationHub, i: nat, j: nat, k: nat)
    requires hub.Valid()
    requires i < j < |hub.outbox| && hub.outbox[i].payload.Roster? && hub.outbox[j].payload.Roster?
    requires k < |hub.outbox[i].payload.users|
    ensures k < |hub.outbox[j].payload.users| && hub.outbox[j].payload.users[k] == hub.outbox[i].payload.users[k]
    ensures k < |hub.connectedUsers| && hub.connectedUsers[k] == hub.outbox[i].payload.users[k]
  {
  }

  /**
   * A client that registers before it knows its own user sends "null"; the
   * same user registering twice is listed twice; a disconnect removes no one.
   */
  method RegisterTwiceScenario(payload: string, user: UserDto) returns (roster: seq<Option<UserDto>>)
    requires !IsNullOrWhiteSpace(payload)
    ensures roster == [None, Some(user), Some(user)]
  {
    var hub := new NotificationHub();
    NullPayloadPassesGuard();
    var ok := hub.ServerSendRegisterNewUser("null", Decoded(None));
    ok := hub.ServerSendRegisterNewUser(payload, Decoded(Some(user)));
    ok := hub.ServerSendRegisterNewUser(payload, Decoded(Some(user)));
    hub.OnDisconnectedAsync(None);
    roster := hub.connectedUsers;
    assert |hub.outbox| == 3 && hub.outbox[2].payload == Roster(roster);
  }
}
