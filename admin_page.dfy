/**
 * `src/pages/Admin.tsx`: the admin page's state and the view it selects.
 *
 * The page's React state is the fields of `AdminPage`. The session and the
 * `user_roles` lookup are foreign calls whose answers are passed in; calls to
 * `navigate`, `toast` and `auth.signOut` are recorded in fields. One
 * `checkAuth` runs at a time.
 */
module Admin {
  import opened Base

  datatype User = User(id: string, email: Option<string>)

  /** What the page renders. */
  datatype View =
    | LoadingView
    | AccessDenied
    | PostList(userId: string)
    | Editor(postId: Option<string>, userId: string)

  datatype Toast = Toast(title: string, description: string)

  const LoggedOutToast := Toast("Logged out", "You've been successfully logged out.")

  class AdminPage {
    var user: Option<User>
    var loading: bool
    var isAdmin: bool
    var showCreateEdit: bool
    var editingPostId: Option<string>
    var navigations: seq<string>
    var toasts: seq<Toast>
    /** How many times `auth.signOut` has been called. */
    var signOuts: nat

    /** The editor is only ever asked to edit a post while it is open. */
    predicate EditorConsistent()
      reads this
    {
      !showCreateEdit ==> editingPostId == None
    }

    constructor ()
      ensures user == None && loading && !isAdmin && !showCreateEdit && editingPostId == None
      ensures navigations == [] && toasts == [] && signOuts == 0
      ensures EditorConsistent()
    {
      user := None;
      loading := true;
      isAdmin := false;
      showCreateEdit := false;
      editingPostId := None;
      navigations := [];
      toasts := [];
      signOuts := 0;
    }

    /** `user?.id || ""`, the id handed to the editor and the post list. */
    function UserIdOrEmpty(): string
      reads this
    {
      if user.Some? then user.value.id else ""
    }

    /** The render: loading first, then access denied, then the dashboard,
        which shows the editor or the post list. */
    function CurrentView(): (v: View)
      reads this
      ensures v == LoadingView <==> loading
      ensures v == AccessDenied <==> !loading && !isAdmin
      ensures (v.PostList? || v.Editor?) <==> !loading && isAdmin
      ensures v.Editor? <==> !loading && isAdmin && showCreateEdit
      ensures v.Editor? ==> v.postId == editingPostId && v.userId == UserIdOrEmpty()
      ensures v.PostList? ==> v.userId == UserIdOrEmpty()
    {
      if loading then LoadingView
      else if !isAdmin then AccessDenied
      else if showCreateEdit then Editor(editingPostId, UserIdOrEmpty())
      else PostList(UserIdOrEmpty())
    }

    /** `checkAuth`, given the session's user and whether the `user_roles`
        query returned an admin row (`.single()` gives no row on an error). */
    method CheckAuth(sessionUser: Option<User>, adminRowFound: bool)
      modifies this
      ensures sessionUser.None? ==>
        && navigations == old(navigations) + ["/auth"]
        && user == old(user) && loading == old(loading) && isAdmin == old(isAdmin)
      ensures sessionUser.Some? ==>
        && navigations == old(navigations)
        && user == sessionUser && isAdmin == adminRowFound && !loading
      ensures showCreateEdit == old(showCreateEdit) && editingPostId == old(editingPostId)
      ensures toasts == old(toasts) && signOuts == old(signOuts)
      ensures old(EditorConsistent()) ==> EditorConsistent()
    {
      if sessionUser.None? {
        navigations := navigations + ["/auth"];
        return;
      }
      user := sessionUser;
      isAdmin := adminRowFound;
      loading := false;
    }

    /** The `onAuthStateChange` listener: a session re-runs the check, no
        session navigates to `/auth`. */
    method OnAuthStateChange(sessionUser: Option<User>, adminRowFound: bool)
      modifies this
      ensures sessionUser.None? ==>
        && navigations == old(navigations) + ["/auth"]
        && user == old(user) && loading == old(loading) && isAdmin == old(isAdmin)
      ensures sessionUser.Some? ==>
        && navigations == old(navigations)
        && user == sessionUser && isAdmin == adminRowFound && !loading
      ensures showCreateEdit == old(showCreateEdit) && editingPostId == old(editingPostId)
      ensures toasts == old(toasts) && signOuts == old(signOuts)
      ensures old(EditorConsistent()) ==> EditorConsistent()
    {
      if sessionUser.Some? {
        user := sessionUser;
        CheckAuth(sessionUser, adminRowFound);
      } else {
        navigations := navigations + ["/auth"];
      }
    }

    /** `handleLogout`: sign out, show the "Logged out" toast, then navigate
        to the home page. The page's own state is left as it was; the
        sign-out reaches it through `onAuthStateChange`. */
    method HandleLogout()
      modifies this
      ensures signOuts == old(signOuts) + 1
      ensures toasts == old(toasts) + [LoggedOutToast]
      ensures navigations == old(navigations) + ["/"]
      ensures user == old(user) && loading == old(loading) && isAdmin == old(isAdmin)
      ensures showCreateEdit == old(showCreateEdit) && editingPostId == old(editingPostId)
      ensures old(EditorConsistent()) ==> EditorConsistent()
    {
      signOuts := signOuts + 1;
      toasts := toasts + [LoggedOutToast];
      navigations := navigations + ["/"];
    }

    /** `handleEdit(postId)`. */
    method HandleEdit(postId: string)
      modifies this
      ensures editingPostId == Some(postId) && showCreateEdit
      ensures user == old(user) && loading == old(loading) && isAdmin == old(isAdmin)
      ensures navigations == old(navigations) && toasts == old(toasts) && signOuts == old(signOuts)
      ensures EditorConsistent()
    {
      editingPostId := Some(postId);
      showCreateEdit := true;
    }

    /** `handleCreateNew`. */
    method HandleCreateNew()
      modifies this
      ensures editingPostId == None && showCreateEdit
      ensures user == old(user) && loading == old(loading) && isAdmin == old(isAdmin)
      ensures navigations == old(navigations) && toasts == old(toasts) && signOuts == old(signOuts)
      ensures EditorConsistent()
    {
      editingPostId := None;
      showCreateEdit := true;
    }

    /** `handleCloseEditor`. */
    method HandleCloseEditor()
      modifies this
      ensures !showCreateEdit && editingPostId == None
      ensures user == old(user) && loading == old(loading) && isAdmin == old(isAdmin)
      ensures navigations == old(navigations) && toasts == old(toasts) && signOuts == old(signOuts)
      ensures EditorConsistent()
    {
      showCreateEdit := false;
      editingPostId := None;
    }
  }

  /** A signed-in user without an admin row ends on the access-denied view; a
      signed-out visitor stays on the loading view and is sent to `/auth`. */
  method SignInScenario(u: User)
  {
    var page := new AdminPage();
    page.CheckAuth(None, false);
    assert page.CurrentView() == LoadingView && page.navigations == ["/auth"];
    page.CheckAuth(Some(u), false);
    assert page.CurrentView() == AccessDenied;
    page.OnAuthStateChange(Some(u), true);
    assert page.CurrentView() == PostList(u.id);
    page.HandleEdit("post-1");
    assert page.CurrentView() == Editor(Some("post-1"), u.id);
    page.HandleCloseEditor();
    assert page.CurrentView() == PostList(u.id);
  }
}
