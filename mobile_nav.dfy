/** The bottom navigation bar on small screens: six items, two of them with unread badges. */
module MobileNav {

  import opened Options
  import opened Strings

  datatype NavItem = NavItem(id: string, caption: string, badge: int)

  /** The item list; a missing count is 0. */
  function NavItems(unreadMessages: Option<int>, unreadNotifications: Option<int>): (r: seq<NavItem>)
    ensures |r| == 6
    ensures r[0].caption == "Home" && r[0].badge == unreadNotifications.GetOr(0)
    ensures r[1].caption == "Chats" && r[1].badge == unreadMessages.GetOr(0)
    ensures forall k :: 2 <= k < 6 ==> r[k].badge == 0
  {
    [ NavItem("dashboard", "Home", unreadNotifications.GetOr(0)),
      NavItem("chat", "Chats", unreadMessages.GetOr(0)),
      NavItem("messages", "DMs", 0),
      NavItem("friends", "Friends", 0),
      NavItem("discovery", "Discover", 0),
      NavItem("profile", "Profile", 0) ]
  }

  /** The items' ids are pairwise distinct. */
  lemma NavIdsDistinct(unreadMessages: Option<int>, unreadNotifications: Option<int>)
    ensures var r := NavItems(unreadMessages, unreadNotifications);
      forall i, j :: 0 <= i < j < |r| ==> r[i].id != r[j].id
  {
  }

  /** The badge on an item: none for a count of 0 or less, "9+" above 9, else the number. */
  function BadgeLabel(count: int): (r: Option<string>)
    ensures r.Some? <==> count > 0
    ensures count > 9 ==> r == Some("9+")
    ensures 0 < count <= 9 ==> r == Some([DigitChar(count)])
  {
    if count <= 0 then None
    else if count > 9 then Some("9+")
    else Some(NatToString(count))
  }

  predicate IsActive(item: NavItem, currentSection: string) {
    currentSection == item.id
  }

  /** At most one item is active, since an item is active when its id is the current section. */
  lemma AtMostOneActive(unreadMessages: Option<int>, unreadNotifications: Option<int>, currentSection: string, i: nat, j: nat)
    requires var r := NavItems(unreadMessages, unreadNotifications);
      i < |r| && j < |r| && IsActive(r[i], currentSection) && IsActive(r[j], currentSection)
    ensures i == j
  {
    NavIdsDistinct(unreadMessages, unreadNotifications);
  }
}
