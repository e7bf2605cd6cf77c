/**
 * `src/components/admin/AdminSidebar.tsx`: the name shown for the signed-in
 * user, its initials, and the menu's active item.
 *
 * `toUpperCase` is a parameter, being Unicode case mapping. The email is
 * taken as text in the Basic Multilingual Plane, where `substring` counts
 * characters.
 */
module AdminSidebar {
  import opened Base
  import opened JsText

  datatype SidebarView = Dashboard | BlogView | ProjectsView | Settings

  datatype MenuItem = MenuItem(id: SidebarView, caption: string)

  const MenuItems: seq<MenuItem> := [
    MenuItem(Dashboard, "Dashboard"),
    MenuItem(BlogView, "Blog"),
    MenuItem(ProjectsView, "Projects"),
    MenuItem(Settings, "Settings")
  ]

  const DefaultInitials := "JD"
  const DefaultName := "John Doe"

  /** `email.substring(0, 2)`. */
  function FirstTwo(email: string): (r: string)
    ensures |r| == Min(2, |email|) && r == email[..|r|]
  {
    email[..Min(2, |email|)]
  }

  /** `getUserInitials`: `user?.email` is falsy when there is no user, no
      email or an empty one. */
  function UserInitials(email: Option<string>, upper: string -> string): (r: string)
    ensures Truthy(email) ==> r == upper(FirstTwo(email.value))
    ensures !Truthy(email) ==> r == DefaultInitials
  {
    if Truthy(email) then upper(FirstTwo(email.value)) else DefaultInitials
  }

  /** With ASCII upper-casing, a non-empty email's initials are its first two
      characters (its only one, for a one-character email) in capitals. */
  lemma InitialsOfEmail(e: string)
    requires e != []
    ensures var r := UserInitials(Some(e), Upper);
      |r| == Min(2, |e|) && (forall i :: 0 <= i < |r| ==> r[i] == UpperChar(e[i]))
  {
  }

  /** `getUserName`: the first `split("@")` part, unless it is empty. */
  function UserName(email: Option<string>): (r: string)
  {
    if email.Some? && BeforeFirst(email.value, '@') != "" then BeforeFirst(email.value, '@')
    else DefaultName
  }

  /** The name is the email's local part when there is one: the text before
      the first `@`, which holds no `@`. */
  lemma UserNameIsLocalPart(email: string)
    requires email != [] && email[0] != '@'
    ensures exists k :: (0 < k <= |email| && UserName(Some(email)) == email[..k]
      && (k < |email| ==> email[k] == '@'))
    ensures '@' !in UserName(Some(email))
  {
    var r := BeforeFirst(email, '@');
    assert r != [] by { assert r == [email[0]] + BeforeFirst(email[1..], '@'); }
    assert UserName(Some(email)) == email[..|r|];
  }

  /** An email starting with `@`, an empty one, or none at all shows the
      default name. */
  lemma NoLocalPartShowsDefault(email: Option<string>)
    requires email.None? || email.value == [] || email.value[0] == '@'
    ensures UserName(email) == DefaultName
  {
  }

  /** An email without `@` is shown whole. */
  lemma NoAtShowsWholeEmail(email: string)
    requires email != [] && '@' !in email
    ensures UserName(Some(email)) == email
  {
  }

  /** With ASCII upper-casing, "jane.doe@example.com" has initials "JA" and
      name "jane.doe". */
  lemma AsciiExample(e: string)
    requires e == "jane.doe@example.com"
    ensures UserInitials(Some(e), Upper) == "JA"
    ensures UserName(Some(e)) == "jane.doe"
  {
    assert FirstTwo(e) == "ja";
    BeforeFirstAt(e, '@', 8);
    assert e[..8] == "jane.doe";
  }

  // ---------------------------------------------------------------------------
  // The menu

  predicate IsActive(item: MenuItem, activeView: SidebarView) {
    item.id == activeView
  }

  /** The menu's ids are distinct. */
  lemma MenuIdsDistinct()
    ensures forall i, j :: 0 <= i < j < |MenuItems| ==> MenuItems[i].id != MenuItems[j].id
  {
  }

  /** Whatever the active view, exactly one item is highlighted: the one with
      its id. */
  lemma ExactlyOneActive(activeView: SidebarView)
    ensures exists k :: 0 <= k < |MenuItems| && IsActive(MenuItems[k], activeView)
    ensures forall i, j :: (0 <= i < |MenuItems| && 0 <= j < |MenuItems| &&
      IsActive(MenuItems[i], activeView) && IsActive(MenuItems[j], activeView)) ==> i == j
  {
    MenuIdsDistinct();
    var k := match activeView
      case Dashboard => 0 case BlogView => 1 case ProjectsView => 2 case Settings => 3;
    assert IsActive(MenuItems[k], activeView);
  }

  /** A click on an item asks for that item's view, which then becomes the
      highlighted one. */
  function ClickedView(k: nat): (v: SidebarView)
    requires k < |MenuItems|
    ensures IsActive(MenuItems[k], v)
    ensures forall j :: 0 <= j < |MenuItems| && j != k ==> !IsActive(MenuItems[j], v)
  {
    MenuIdsDistinct();
    MenuItems[k].id
  }
}
