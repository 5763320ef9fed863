/** User administration (components/administracao/UserManagementPage.tsx): the user list
    with add, edit and delete, where the master administrator (id 1) can be neither deleted
    nor given a role other than admin. */
module Users {
  import opened Seqs
  import opened Types
  import opened Ids

  const MasterAdminId: int := 1

  /** The user form's data (`Partial<User>` without the id). */
  datatype UserPatch = UserPatch(
    username: Option<string>,
    role: Option<UserRole>,
    name: Option<string>,
    email: Option<string>,
    senha: Option<Option<string>>,
    status: Option<UserStatus>)
  {
    /** The fields every user has, as the form always sends them for a new user. */
    predicate IsComplete() {
      username.Some? && role.Some? && name.Some? && email.Some? && status.Some?
    }
  }

  /** `{...u, ...data}` */
  function MergeUser(u: User, data: UserPatch): User {
    User(
      u.id,
      data.username.GetOr(u.username),
      data.role.GetOr(u.role),
      data.name.GetOr(u.name),
      data.email.GetOr(u.email),
      data.senha.GetOr(u.senha),
      data.status.GetOr(u.status))
  }

  /** `{id, ...data}` */
  function NewUser(id: int, data: UserPatch): User
    requires data.IsComplete()
  {
    User(id, data.username.value, data.role.value, data.name.value, data.email.value,
         data.senha.GetOr(None), data.status.value)
  }

  function UserIds(users: seq<User>): (ids: seq<int>)
    ensures |ids| == |users| && forall i :: 0 <= i < |users| ==> ids[i] == users[i].id
  {
    if users == [] then [] else [users[0].id] + UserIds(users[1..])
  }

  /** The edit branch of `handleSave`: the user with the selected id is merged with the form
      data; the list keeps its length, its ids and every other user. */
  function UpdateUser(users: seq<User>, id: int, data: UserPatch): (r: seq<User>)
    ensures |r| == |users|
    ensures UserIds(r) == UserIds(users)
    ensures forall i :: 0 <= i < |users| && users[i].id != id ==> r[i] == users[i]
    ensures forall i :: 0 <= i < |users| && users[i].id == id ==> r[i] == MergeUser(users[i], data)
  {
    if users == [] then []
    else [if users[0].id == id then MergeUser(users[0], data) else users[0]] + UpdateUser(users[1..], id, data)
  }

  /** The predicate `u => u.id !== id` of the user delete. */
  function OtherUser(id: int): User -> bool {
    (u: User) => u.id != id
  }

  /** The filter of `confirmDelete`: exactly the users with the id go, the others stay in order. */
  function RemoveUser(users: seq<User>, id: int): (r: seq<User>)
    ensures forall x :: x in r ==> x.id != id && x in users
    ensures forall x :: x in users && x.id != id ==> x in r
    ensures SubseqOf(r, users)
    ensures forall x :: x in users ==> multiset(r)[x] == if x.id != id then multiset(users)[x] else 0
  {
    FilterMultiplicity(users, OtherUser(id));
    Filter(users, OtherUser(id))
  }

  /** The list holds a master administrator with the admin role. */
  predicate MasterAdminPresent(users: seq<User>) {
    exists i :: 0 <= i < |users| && users[i].id == MasterAdminId && users[i].role == Admin
  }

  /** The guard of `handleSave`: an edit of the master administrator must keep role admin. */
  predicate EditRefused(selected: User, data: UserPatch) {
    selected.id == MasterAdminId && data.role != Some(Admin)
  }

  /** An edit the guard lets through keeps the master administrator an admin. */
  lemma AllowedEditKeepsMaster(users: seq<User>, selected: User, data: UserPatch)
    requires MasterAdminPresent(users) && !EditRefused(selected, data)
    ensures MasterAdminPresent(UpdateUser(users, selected.id, data))
  {
    var i :| 0 <= i < |users| && users[i].id == MasterAdminId && users[i].role == Admin;
    assert UpdateUser(users, selected.id, data)[i].id == MasterAdminId;
  }

  /** Without the guard, an edit of the master administrator that names another role would
      demote it. */
  lemma UnguardedEditDemotesMaster(users: seq<User>, data: UserPatch, i: int)
    requires 0 <= i < |users| && users[i].id == MasterAdminId
    requires data.role.Some? && data.role.value != Admin
    ensures UpdateUser(users, MasterAdminId, data)[i].role != Admin
  {
  }

  /** Deleting any id but the master's keeps the master administrator. */
  lemma DeleteOtherKeepsMaster(users: seq<User>, id: int)
    requires MasterAdminPresent(users) && id != MasterAdminId
    ensures MasterAdminPresent(RemoveUser(users, id))
  {
    var i :| 0 <= i < |users| && users[i].id == MasterAdminId && users[i].role == Admin;
    var r := RemoveUser(users, id);
    assert users[i] in r;
    var k :| 0 <= k < |r| && r[k] == users[i];
  }

  /** Adding a user keeps the master administrator. */
  lemma AddKeepsMaster(users: seq<User>, novo: User)
    requires MasterAdminPresent(users)
    ensures MasterAdminPresent(users + [novo])
  {
    var i :| 0 <= i < |users| && users[i].id == MasterAdminId && users[i].role == Admin;
    assert (users + [novo])[i] == users[i];
  }

  /** The page's state. The user list is the application's, passed in with its setter. */
  class UserManagementPage {
    var users: seq<User>
    var isFormOpen: bool
    var isDeleteOpen: bool
    var selectedUser: Option<User>

    /** While the delete confirmation is open, the user it would delete is not the master. */
    predicate Valid()
      reads this
    {
      isDeleteOpen ==> selectedUser.Some? && selectedUser.value.id != MasterAdminId
    }

    constructor (allUsers: seq<User>)
      ensures Valid()
      ensures users == allUsers && !isFormOpen && !isDeleteOpen && selectedUser.None?
    {
      users := allUsers;
      isFormOpen, isDeleteOpen := false, false;
      selectedUser := None;
    }

    /** `handleOpenForm`. The delete confirmation is modal, so the form is never opened
        while it is showing. */
    method HandleOpenForm(user: Option<User>)
      requires Valid() && !isDeleteOpen
      modifies this
      ensures Valid()
      ensures selectedUser == user && isFormOpen
      ensures users == old(users) && isDeleteOpen == old(isDeleteOpen)
    {
      selectedUser := user;
      isFormOpen := true;
    }

    /** `handleSave`: a refused edit of the master administrator changes nothing (the form
        stays open); any other edit merges the selected user; otherwise a new user is
        appended, numbered one past the largest id (or 1). */
    method HandleSave(data: UserPatch)
      requires Valid()
      requires selectedUser.None? ==> data.IsComplete()
      modifies this
      ensures Valid()
      ensures old(selectedUser).Some? && EditRefused(old(selectedUser).value, data) ==>
        users == old(users) && isFormOpen == old(isFormOpen)
      ensures old(selectedUser).Some? && !EditRefused(old(selectedUser).value, data) ==>
        users == UpdateUser(old(users), old(selectedUser).value.id, data) && !isFormOpen
      ensures old(selectedUser).None? ==>
        users == old(users) + [NewUser(NextId(UserIds(old(users))), data)] && !isFormOpen
      ensures selectedUser == old(selectedUser) && isDeleteOpen == old(isDeleteOpen)
      ensures old(MasterAdminPresent(users)) ==> MasterAdminPresent(users)
    {
      if selectedUser.Some? {
        if EditRefused(selectedUser.value, data) {
          return;
        }
        AllowedEditKeepsMasterIfPresent(users, selectedUser.value, data);
        users := UpdateUser(users, selectedUser.value.id, data);
      } else {
        var novo := NewUser(NextId(UserIds(users)), data);
        if MasterAdminPresent(users) {
          AddKeepsMaster(users, novo);
        }
        users := users + [novo];
      }
      isFormOpen := false;
    }

    /** `handleDelete`: the master administrator is refused outright; anyone else is
        selected for a confirmed delete. */
    method HandleDelete(user: User)
      requires Valid()
      modifies this
      ensures Valid()
      ensures user.id == MasterAdminId ==>
        selectedUser == old(selectedUser) && isDeleteOpen == old(isDeleteOpen)
      ensures user.id != MasterAdminId ==> selectedUser == Some(user) && isDeleteOpen
      ensures users == old(users) && isFormOpen == old(isFormOpen)
    {
      if user.id == MasterAdminId {
        return;
      }
      selectedUser := Some(user);
      isDeleteOpen := true;
    }

    /** The dialog's cancel button. */
    method CancelDelete()
      requires Valid()
      modifies this
      ensures Valid()
      ensures !isDeleteOpen
      ensures users == old(users) && selectedUser == old(selectedUser) && isFormOpen == old(isFormOpen)
    {
      isDeleteOpen := false;
    }

    /** `confirmDelete`, reachable only from the open confirmation dialog: removes the
        selected user's id, which is never the master's. */
    method ConfirmDelete()
      requires Valid() && isDeleteOpen
      modifies this
      ensures Valid()
      ensures users == RemoveUser(old(users), old(selectedUser).value.id)
      ensures old(selectedUser).value.id != MasterAdminId
      ensures !isDeleteOpen && selectedUser == old(selectedUser) && isFormOpen == old(isFormOpen)
      ensures old(MasterAdminPresent(users)) ==> MasterAdminPresent(users)
    {
      if MasterAdminPresent(users) {
        DeleteOtherKeepsMaster(users, selectedUser.value.id);
      }
      users := RemoveUser(users, selectedUser.value.id);
      isDeleteOpen := false;
    }
  }

  lemma AllowedEditKeepsMasterIfPresent(users: seq<User>, selected: User, data: UserPatch)
    requires !EditRefused(selected, data)
    ensures MasterAdminPresent(users) ==> MasterAdminPresent(UpdateUser(users, selected.id, data))
  {
    if MasterAdminPresent(users) {
      AllowedEditKeepsMaster(users, selected, data);
    }
  }
}
