/** The navigation shell: the declared menu with the roles allowed to see
    each entry, filtered for the signed-in user's role. */
module Layout {
  import opened Types
  import App

  datatype MenuItem = MenuItem(view: PageView, roles: seq<UserRole>)

  /** The menu as declared, in display order. */
  const MenuItems: seq<MenuItem> := [
    MenuItem(DashboardView, [Admin]),
    MenuItem(LogEntryView, [Captain, ChiefEngineer, Admin]),
    MenuItem(LogListView, [Admin, Captain]),
    MenuItem(UserMgmt, [Admin]),
    MenuItem(ShipMgmt, [Admin]),
    MenuItem(TelegramSettingsView, [Admin])
  ]

  /** The menu shown to a role: the declared items listing it, in declared
      order. */
  function Menu(role: UserRole): (r: seq<MenuItem>)
    ensures forall item :: item in r <==> item in MenuItems && role in item.roles
  {
    VisibleMembers(MenuItems, role);
    Visible(MenuItems, role)
  }

  /** The items of `items` that list `role`, in order. */
  function Visible(items: seq<MenuItem>, role: UserRole): seq<MenuItem>
  {
    if |items| == 0 then []
    else (if role in items[0].roles then [items[0]] else []) + Visible(items[1..], role)
  }

  /** The filter keeps exactly the items listing the role. */
  lemma {:induction false} VisibleMembers(items: seq<MenuItem>, role: UserRole)
    ensures forall item :: item in Visible(items, role) <==> item in items && role in item.roles
  {
    if |items| > 0 {
      VisibleMembers(items[1..], role);
      assert forall item :: item in items <==> item == items[0] || item in items[1..];
    }
  }

  function Views(items: seq<MenuItem>): (r: seq<PageView>)
    ensures |r| == |items|
    ensures forall i :: 0 <= i < |items| ==> r[i] == items[i].view
  {
    seq(|items|, i requires 0 <= i < |items| => items[i].view)
  }

  lemma {:induction false} VisibleConcat(a: seq<MenuItem>, b: seq<MenuItem>, role: UserRole)
    ensures Visible(a + b, role) == Visible(a, role) + Visible(b, role)
  {
    if |a| > 0 {
      assert (a + b)[1..] == a[1..] + b;
      VisibleConcat(a[1..], b, role);
    } else {
      assert a + b == b;
    }
  }

  /** Items that all list the role are all shown; items that none lists
      are all hidden. */
  lemma {:induction false} VisibleAllOrNone(items: seq<MenuItem>, role: UserRole)
    ensures (forall item :: item in items ==> role in item.roles) ==> Visible(items, role) == items
    ensures (forall item :: item in items ==> role !in item.roles) ==> Visible(items, role) == []
  {
    if |items| > 0 {
      assert forall item :: item in items[1..] ==> item in items;
      VisibleAllOrNone(items[1..], role);
      assert items == [items[0]] + items[1..];
    }
  }

  lemma AdminItems()
    ensures Menu(Admin) == MenuItems
  {
    VisibleAllOrNone(MenuItems, Admin);
  }

  lemma VisibleCons(item: MenuItem, rest: seq<MenuItem>, role: UserRole)
    ensures Visible([item] + rest, role) == (if role in item.roles then [item] else []) + Visible(rest, role)
  {
    assert ([item] + rest)[1..] == rest;
  }

  lemma CaptainItems()
    ensures Menu(Captain) == [MenuItems[1], MenuItems[2]]
  {
    var I := MenuItems;
    assert I == [I[0]] + [I[1], I[2]] + [I[3], I[4], I[5]];
    VisibleConcat([I[0]] + [I[1], I[2]], [I[3], I[4], I[5]], Captain);
    VisibleConcat([I[0]], [I[1], I[2]], Captain);
    VisibleAllOrNone([I[0]], Captain);
    VisibleAllOrNone([I[1], I[2]], Captain);
    VisibleAllOrNone([I[3], I[4], I[5]], Captain);
  }

  lemma ChiefEngineerItems()
    ensures Menu(ChiefEngineer) == [MenuItems[1]]
  {
    var I := MenuItems;
    var head := [I[0], I[1]];
    var tail := [I[2], I[3], I[4], I[5]];
    assert I == head + tail;
    VisibleConcat(head, tail, ChiefEngineer);
    VisibleAllOrNone(tail, ChiefEngineer);
    VisibleCons(I[0], [I[1]], ChiefEngineer);
    VisibleCons(I[1], [], ChiefEngineer);
    assert head == [I[0]] + [I[1]];
  }

  lemma DeclaredViews()
    ensures Views(MenuItems) == [DashboardView, LogEntryView, LogListView, UserMgmt, ShipMgmt, TelegramSettingsView]
  {
  }

  /** The administrator sees every entry in declared order. */
  lemma AdminMenu()
    ensures Views(Menu(Admin)) == [DashboardView, LogEntryView, LogListView, UserMgmt, ShipMgmt, TelegramSettingsView]
  {
    AdminItems();
    DeclaredViews();
  }

  /** A captain sees the entry form and the log list. */
  lemma CaptainMenu()
    ensures Views(Menu(Captain)) == [LogEntryView, LogListView]
  {
    CaptainItems();
  }

  /** A chief engineer sees only the entry form. */
  lemma ChiefEngineerMenu()
    ensures Views(Menu(ChiefEngineer)) == [LogEntryView]
  {
    ChiefEngineerItems();
  }

  /** Crew members see no entries at all. */
  lemma CrewMenu()
    ensures Menu(Crew) == []
  {
    VisibleAllOrNone(MenuItems, Crew);
  }

  /** The menu of each role, spelled out. */
  function ExpectedViews(role: UserRole): seq<PageView>
  {
    match role
    case Admin => [DashboardView, LogEntryView, LogListView, UserMgmt, ShipMgmt, TelegramSettingsView]
    case Captain => [LogEntryView, LogListView]
    case ChiefEngineer => [LogEntryView]
    case Crew => []
  }

  /** Every role's menu is the spelled-out one. */
  lemma MenuIsExpected(role: UserRole)
    ensures Views(Menu(role)) == ExpectedViews(role)
  {
    match role
    case Admin => AdminMenu();
    case Captain => CaptainMenu();
    case ChiefEngineer => ChiefEngineerMenu();
    case Crew => CrewMenu();
  }

  /** The dashboard and the three management pages are for the
      administrator only. */
  lemma AdminOnlyViews(role: UserRole)
    ensures DashboardView in Views(Menu(role)) <==> role == Admin
    ensures UserMgmt in Views(Menu(role)) <==> role == Admin
    ensures ShipMgmt in Views(Menu(role)) <==> role == Admin
    ensures TelegramSettingsView in Views(Menu(role)) <==> role == Admin
  {
    MenuIsExpected(role);
    AdminOnlyExpected(role);
  }

  lemma AdminOnlyExpected(role: UserRole)
    ensures DashboardView in ExpectedViews(role) <==> role == Admin
    ensures UserMgmt in ExpectedViews(role) <==> role == Admin
    ensures ShipMgmt in ExpectedViews(role) <==> role == Admin
    ensures TelegramSettingsView in ExpectedViews(role) <==> role == Admin
  {
  }

  /** Login routing and the menu agree for every role but crew: crew members
      land on the dashboard, which their menu does not offer. */
  lemma LandingViewInMenu(u: User)
    ensures App.LandingView(u) in Views(Menu(u.role)) <==> u.role != Crew
  {
    MenuIsExpected(u.role);
  }
}
