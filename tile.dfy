/**
 * One contact tile: its background and badge are a total function of whether the tile is
 * selected and of the contact's request status; clicking it emits `selected_chat` once.
 */
module ContactTile {
  import opened Wrappers
  import opened Events

  const SELECTED_BG := "bg-gray-300"
  const PENDING_BG := "bg-pink-100"
  const REJECTED_BG := "bg-red-300"
  const PENDING_BADGE := "bg-yellow-400"
  const REJECTED_BADGE := "bg-red-400"

  /** `getBackgroundContact`: grey exactly for the selected tile. */
  function Background(isSelected: bool, status: Option<string>): (r: string)
    ensures r == SELECTED_BG <==> isSelected
  {
    if !isSelected then
      if status == Some(PENDING) then PENDING_BG
      else if status == Some(REJECTED) then REJECTED_BG
      else ""
    else SELECTED_BG
  }

  /** `getStatusBadgeClass`: a colour exactly for pending and rejected. */
  function BadgeClass(status: Option<string>): (r: string)
    ensures r != "" <==> status == Some(PENDING) || status == Some(REJECTED)
  {
    if status == Some(PENDING) then PENDING_BADGE
    else if status == Some(REJECTED) then REJECTED_BADGE
    else ""
  }

  /** The badge beside the name: its class and its text, or `None` when it is not rendered. */
  function Badge(status: Option<string>): (r: Option<(string, string)>)
    ensures r.Some? <==> status == Some(PENDING) || status == Some(REJECTED)
    ensures r.Some? ==> r.value.1 == status.value
  {
    if status == Some(PENDING) || status == Some(REJECTED) then Some((BadgeClass(status), status.value))
    else None
  }

  /** A selected tile is grey whatever its status. */
  lemma SelectedTileIsGrey(status: Option<string>)
    ensures Background(true, status) == SELECTED_BG
  {
  }

  /** An unselected tile: pink exactly for pending, red exactly for rejected, no class otherwise
      (accepted, any other text, or no status at all). */
  lemma UnselectedBackground(status: Option<string>)
    ensures Background(false, status) == PENDING_BG <==> status == Some(PENDING)
    ensures Background(false, status) == REJECTED_BG <==> status == Some(REJECTED)
    ensures Background(false, status) == "" <==> status != Some(PENDING) && status != Some(REJECTED)
  {
  }

  /** The badge is shown exactly for pending and rejected, reads the status, and always has a
      colour class; an unselected tile is tinted exactly when it shows a badge. */
  lemma BadgeAgreesWithBackground(isSelected: bool, status: Option<string>)
    ensures Badge(status).Some? <==> status == Some(PENDING) || status == Some(REJECTED)
    ensures Badge(status).Some? ==> Badge(status).value.1 == status.value && Badge(status).value.0 != ""
    ensures BadgeClass(status) != "" <==> Badge(status).Some?
    ensures status == Some(PENDING) ==> BadgeClass(status) == PENDING_BADGE
    ensures status == Some(REJECTED) ==> BadgeClass(status) == REJECTED_BADGE
    ensures !isSelected ==> (Background(isSelected, status) != "" <==> Badge(status).Some?)
  {
  }

  /**
   * `handleChat`: on an unselected tile, emit `selected_chat` with the tile's name and status and
   * report that `onSelect` is to be called; on a selected tile, do nothing.
   */
  method HandleChat(store: EventStore, name: Option<string>, status: Option<string>, isSelected: bool)
    returns (selectCalled: bool)
    modifies store
    ensures selectCalled == !isSelected
    ensures store.events == if isSelected then old(store.events)
                            else old(store.events)[SelectedChat := ChatSelection(name, status)]
  {
    selectCalled := false;
    if !isSelected {
      store.AddEvent(SelectedChat, ChatSelection(name, status));
      selectCalled := true;
    }
  }
}
