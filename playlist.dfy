/**
 * The playlist operations of the client (frontend/src/App.tsx): the item a
 * new link becomes, removal by position, marking the selected item as the one
 * playing, and finding the embed URL of the item that is playing.
 */
module Playlist {
  import opened Wrappers
  import opened Player

  /** The item appended for an accepted link: no title or thumbnail yet, not playing. */
  function NewItem(url: string, embeddedUrl: string): (item: PlaylistItem)
    ensures item.url == url && item.embeddedUrl == embeddedUrl
    ensures item.title == "" && item.thumbnail == "" && !item.isCurrentlyPlaying
  {
    PlaylistItem(url, embeddedUrl, "", "", false)
  }

  // ---------------------------------------------------------------------------
  // Remove at index
  // ---------------------------------------------------------------------------

  /** `items.filter((_, i) => i !== index)`: drops the element at `index`, if
      there is one, and keeps the others in their order. */
  function RemoveAt<T>(items: seq<T>, index: nat): (r: seq<T>)
    ensures |r| == if index < |items| then |items| - 1 else |items|
    ensures forall k :: 0 <= k < |r| && k < index ==> r[k] == items[k]
    ensures forall k {:trigger r[k]} :: index <= k < |r| ==> r[k] == items[k + 1]
    decreases items
  {
    if items == [] then []
    else if index == 0 then items[1..]
    else [items[0]] + RemoveAt(items[1..], index - 1)
  }

  /** Removal in range loses exactly the one removed element. */
  lemma {:induction false} RemoveAtDropsExactlyOne<T>(items: seq<T>, index: nat)
    requires index < |items|
    ensures multiset(RemoveAt(items, index)) + multiset{items[index]} == multiset(items)
  {
    RemoveAtIsSliceConcat(items, index);
    var left, x, right := items[..index], items[index], items[index + 1..];
    assert items == left + ([x] + right);
    assert multiset(items) == multiset(left) + multiset([x] + right);
    assert multiset([x] + right) == multiset{x} + multiset(right);
    assert multiset(left + right) == multiset(left) + multiset(right);
  }

  /** Removal in range is the concatenation of the slices around the index. */
  lemma {:induction false} RemoveAtIsSliceConcat<T>(items: seq<T>, index: nat)
    requires index < |items|
    ensures RemoveAt(items, index) == items[..index] + items[index + 1..]
  {
  }

  /** An index past the end removes nothing. */
  lemma RemoveAtOutOfRange<T>(items: seq<T>, index: nat)
    requires index >= |items|
    ensures RemoveAt(items, index) == items
  {
  }

  // ---------------------------------------------------------------------------
  // Select the currently playing item
  // ---------------------------------------------------------------------------

  /** The playlist after selecting an item with `url`: every item with that url
      is flagged as playing, every other item is unflagged, nothing else changes. */
  function MarkSelected(items: seq<PlaylistItem>, url: string): (r: seq<PlaylistItem>)
    ensures |r| == |items|
    ensures forall k :: 0 <= k < |r| ==> (r[k].isCurrentlyPlaying <==> items[k].url == url)
    ensures forall k :: 0 <= k < |r| ==> r[k].url == items[k].url && r[k].embeddedUrl == items[k].embeddedUrl
    ensures forall k :: 0 <= k < |r| ==> r[k].title == items[k].title && r[k].thumbnail == items[k].thumbnail
  {
    seq(|items|, k requires 0 <= k < |items| => items[k].(isCurrentlyPlaying := items[k].url == url))
  }

  /** The state after the select button of item `index` is pressed. */
  function SelectItem(s: PlayerState, index: nat): (t: PlayerState)
    requires s.playlistItems.Some? && index < |s.playlistItems.value|
    ensures t.eventType == AddItemToPlaylist
    ensures t.originalUrl == s.originalUrl && t.embedUrl == s.embedUrl
    ensures t.playlistItems == Some(MarkSelected(s.playlistItems.value, s.playlistItems.value[index].url))
  {
    var items := s.playlistItems.value;
    s.(eventType := AddItemToPlaylist, playlistItems := Some(MarkSelected(items, items[index].url)))
  }

  // ---------------------------------------------------------------------------
  // The item currently playing
  // ---------------------------------------------------------------------------

  /** `items.filter(x => x.isCurrentlyPlaying)`. */
  function Flagged(items: seq<PlaylistItem>): (r: seq<PlaylistItem>)
    ensures |r| <= |items|
    ensures forall x :: x in r ==> x in items && x.isCurrentlyPlaying
    ensures forall i :: 0 <= i < |items| && items[i].isCurrentlyPlaying ==> items[i] in r
    decreases items
  {
    if items == [] then []
    else
      assert forall i :: 0 < i < |items| ==> items[i] == items[1..][i - 1];
      (if items[0].isCurrentlyPlaying then [items[0]] else []) + Flagged(items[1..])
  }

  /** `i` is the position of the first item flagged as playing. */
  ghost predicate IsFirstFlagged(items: seq<PlaylistItem>, i: int) {
    0 <= i < |items| && items[i].isCurrentlyPlaying
    && forall j :: 0 <= j < i ==> !items[j].isCurrentlyPlaying
  }

  /** The filter is empty exactly when no item is flagged. */
  lemma FlaggedEmptyIffNoneFlagged(items: seq<PlaylistItem>)
    ensures Flagged(items) == [] <==> forall j :: 0 <= j < |items| ==> !items[j].isCurrentlyPlaying
  {
  }

  /** A non-empty filter starts with the first flagged item. */
  lemma {:induction false} FlaggedStartsWithFirst(items: seq<PlaylistItem>)
    ensures Flagged(items) != [] ==> exists i :: IsFirstFlagged(items, i) && Flagged(items)[0] == items[i]
    decreases items
  {
    if items != [] {
      var tail := items[1..];
      FlaggedStartsWithFirst(tail);
      if items[0].isCurrentlyPlaying {
        assert IsFirstFlagged(items, 0);
      } else if Flagged(tail) != [] {
        var i :| IsFirstFlagged(tail, i) && Flagged(tail)[0] == tail[i];
        assert IsFirstFlagged(items, i + 1);
      }
    }
  }

  /**
   * `getCurrentlyPlaying()`: the embed URL of the first item flagged as playing;
   * nothing when there is no playlist, no flagged item, or that item's embed
   * URL is empty.
   */
  function GetCurrentlyPlaying(s: PlayerState): (r: Option<string>)
    ensures r.Some? ==> r.value != "" && s.playlistItems.Some?
    ensures r.Some? ==> exists i :: IsFirstFlagged(s.playlistItems.value, i)
                                    && s.playlistItems.value[i].embeddedUrl == r.value
    ensures r.None? && s.playlistItems.Some? ==>
              forall i :: IsFirstFlagged(s.playlistItems.value, i) ==> s.playlistItems.value[i].embeddedUrl == ""
  {
    match s.playlistItems
    case None => None
    case Some(items) =>
      var flagged := Flagged(items);
      FlaggedEmptyIffNoneFlagged(items);
      FlaggedStartsWithFirst(items);
      if flagged == [] || flagged[0].embeddedUrl == "" then None
      else Some(flagged[0].embeddedUrl)
  }

  /** `j` is the first position whose item has `url`. */
  ghost predicate IsFirstWithUrl(items: seq<PlaylistItem>, url: string, j: int) {
    0 <= j < |items| && items[j].url == url
    && forall k :: 0 <= k < j ==> items[k].url != url
  }

  lemma {:induction false} FirstWithUrlExists(items: seq<PlaylistItem>, url: string, i: nat)
    requires i < |items| && items[i].url == url
    ensures exists j :: IsFirstWithUrl(items, url, j)
    decreases i
  {
    if !IsFirstWithUrl(items, url, i) {
      var k :| 0 <= k < i && items[k].url == url;
      FirstWithUrlExists(items, url, k);
    }
  }

  /**
   * After selecting item `index`, the player shows the first item sharing its
   * url: the embed URL of that item, or nothing when it is empty.
   */
  lemma SelectedItemIsPlaying(s: PlayerState, index: nat)
    requires s.playlistItems.Some? && index < |s.playlistItems.value|
    ensures var items := s.playlistItems.value;
            exists j :: IsFirstWithUrl(items, items[index].url, j)
                        && GetCurrentlyPlaying(SelectItem(s, index))
                           == (if items[j].embeddedUrl == "" then None else Some(items[j].embeddedUrl))
  {
    var items := s.playlistItems.value;
    var url := items[index].url;
    FirstWithUrlExists(items, url, index);
    var j :| IsFirstWithUrl(items, url, j);
    var marked := MarkSelected(items, url);
    assert IsFirstFlagged(marked, j);
    assert forall i :: IsFirstFlagged(marked, i) ==> i == j;
  }
}
