/** The user management screen (src/views/admin/marketplace/index.tsx): a
    list of users, a details dialog opened with View, and deletion behind a
    confirmation dialog that remembers the id waiting for confirmation. */
module Users {
  import opened Common

  datatype OrderLine = OrderLine(id: string, name: string, quantity: int, review: string)

  datatype User = User(
    id: int,
    name: string,
    email: string,
    profilePicture: string,
    contact: string,
    orders: seq<OrderLine>,
    rating: real)

  /** The component's state: the user list, the user opened with View, the
      details dialog flag, and `isDeleteConfirmOpen`, the id waiting for
      confirmation or `null`. */
  datatype UsersPage = UsersPage(
    users: seq<User>,
    selected: Option<User>,
    detailsOpen: bool,
    pendingDelete: Option<int>)

  /** The page as first rendered. */
  function InitialPage(users: seq<User>): (p: UsersPage)
    ensures p.users == users && p.selected == None && !p.detailsOpen
    ensures p.pendingDelete == None
  {
    UsersPage(users, None, false, None)
  }

  /** The list update of `handleDeleteUser`: exactly the users whose id
      differs from `id`, in their original order. */
  function DeleteUser(users: seq<User>, id: int): (r: seq<User>)
    ensures Subsequence(r, users)
    ensures forall i :: 0 <= i < |r| ==> r[i].id != id
    ensures forall u :: multiset(r)[u] == if u.id != id then multiset(users)[u] else 0
  {
    Filter(users, (u: User) => u.id != id)
  }

  /** Deleting an id nobody has leaves the list unchanged. */
  lemma DeleteAbsentId(users: seq<User>, id: int)
    requires forall i :: 0 <= i < |users| ==> users[i].id != id
    ensures DeleteUser(users, id) == users
  {
    FilterKeepsAll(users, (u: User) => u.id != id);
  }

  /** Deleting the same id twice is deleting it once. */
  lemma DeleteTwice(users: seq<User>, id: int)
    ensures DeleteUser(DeleteUser(users, id), id) == DeleteUser(users, id)
  {
    FilterIdempotent(users, (u: User) => u.id != id);
  }

  /** View: remembers the user and opens the details dialog; the list is
      not touched. */
  function ViewUser(p: UsersPage, u: User): (r: UsersPage)
    ensures r.selected == Some(u) && r.detailsOpen
    ensures r.users == p.users && r.pendingDelete == p.pendingDelete
  {
    p.(selected := Some(u), detailsOpen := true)
  }

  /** Closing the details dialog. */
  function CloseDetails(p: UsersPage): (r: UsersPage)
    ensures !r.detailsOpen && r.users == p.users && r.selected == p.selected
    ensures r.pendingDelete == p.pendingDelete
  {
    p.(detailsOpen := false)
  }

  /** The Delete button of a row records that row's id as pending. */
  function RequestDelete(p: UsersPage, id: int): (r: UsersPage)
    ensures r.pendingDelete == Some(id)
    ensures r.users == p.users && r.selected == p.selected && r.detailsOpen == p.detailsOpen
  {
    p.(pendingDelete := Some(id))
  }

  /** The confirmation dialog is rendered only when the pending id is
      truthy: present and not 0. */
  predicate ConfirmationShown(p: UsersPage) {
    p.pendingDelete.Some? && p.pendingDelete.value != 0
  }

  /** "Yes, Delete" (only inside the rendered dialog): removes the users
      with the pending id and clears the pending id. The selection is not
      cleared, even when it is the deleted user. */
  function ConfirmDelete(p: UsersPage): (r: UsersPage)
    requires ConfirmationShown(p)
    ensures r.users == DeleteUser(p.users, p.pendingDelete.value)
    ensures r.pendingDelete == None && !ConfirmationShown(r)
    ensures r.selected == p.selected && r.detailsOpen == p.detailsOpen
  {
    p.(users := DeleteUser(p.users, p.pendingDelete.value), pendingDelete := None)
  }

  /** "Cancel" or the dialog's own close: the pending id is cleared and the
      list stays as it was. */
  function CancelDelete(p: UsersPage): (r: UsersPage)
    ensures r.pendingDelete == None && !ConfirmationShown(r)
    ensures r.users == p.users && r.selected == p.selected && r.detailsOpen == p.detailsOpen
  {
    p.(pendingDelete := None)
  }

  /** Asking to delete the user with id 0 shows no confirmation, so that
      user can never be deleted through the dialog. */
  lemma IdZeroNeverConfirmed(p: UsersPage)
    ensures !ConfirmationShown(RequestDelete(p, 0))
  {
  }

  /** Request then confirm: the requested user is gone, everyone else is
      kept in order, and the confirmation state is back to `null`. */
  lemma {:induction false} RequestThenConfirm(p: UsersPage, id: int)
    requires id != 0
    ensures var r := ConfirmDelete(RequestDelete(p, id));
            && (forall i :: 0 <= i < |r.users| ==> r.users[i].id != id)
            && Subsequence(r.users, p.users)
            && (forall i :: 0 <= i < |p.users| && p.users[i].id != id ==> p.users[i] in r.users)
            && r.pendingDelete == None
  {
    var r := ConfirmDelete(RequestDelete(p, id));
    forall i | 0 <= i < |p.users| && p.users[i].id != id
      ensures p.users[i] in r.users
    {
      assert p.users[i] in multiset(p.users);
      assert multiset(r.users)[p.users[i]] == multiset(p.users)[p.users[i]];
    }
  }
}
