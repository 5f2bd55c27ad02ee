/**
 * The request interceptor of the user site: it picks the menu entry the
 * requested URI belongs to from the user group's menu list, then sets the
 * alias name of that menu and of its parent menu.
 */
module ConfigInterceptor {
  import opened Wrappers
  import opened JavaText

  /** One row of a user group's menu list; `parent` is null for some top-level rows. */
  datatype UserGroupMenu = UserGroupMenu(menuId: int, parent: Option<int>, depth: int, url: Option<string>)

  datatype UserSession = UserSession(userGroupId: int)

  /** A cached menu. Only its alias name is ever changed. */
  class Menu {
    const name: string
    const displayYn: string
    const urlAlias: Option<string>
    var aliasName: Option<string>

    constructor (name: string, displayYn: string, urlAlias: Option<string>)
      ensures this.name == name && this.displayYn == displayYn && this.urlAlias == urlAlias
      ensures aliasName == None
    {
      this.name := name;
      this.displayYn := displayYn;
      this.urlAlias := urlAlias;
      aliasName := None;
    }
  }

  /** The menu the scan settled on: `clickMenuId`, `clickParentId` and `clickDepth`. */
  datatype Click = Click(menuId: int, parentId: int, depth: int)

  /** Without a session the anonymous user group, number 1, is used. */
  const AnonymousGroup: int := 1

  function UserGroupIdOf(session: Option<UserSession>): (id: int)
    ensures session.None? ==> id == AnonymousGroup
    ensures session.Some? ==> id == session.value.userGroupId
  {
    match session
    case None => AnonymousGroup
    case Some(s) => s.userGroupId
  }

  // -------------------------------------------------------------- the scan

  predicate Matches(uri: string, m: UserGroupMenu) { m.url == Some(uri) }

  predicate IsMainIndex(uri: string) { IndexOf(uri, "/main/index") >= 0 }

  /** A match that ends the scan: depth 1 on a main-index URI, or depth 2. */
  predicate Stops(uri: string, m: UserGroupMenu) {
    Matches(uri, m) && ((m.depth == 1 && IsMainIndex(uri)) || m.depth == 2)
  }

  /** A match below depth 1 without a parent: reading its parent dereferences null. */
  predicate Faulty(uri: string, m: UserGroupMenu) {
    Matches(uri, m) && m.depth != 1 && m.parent.None?
  }

  /**
   * How far the scan of `list` gets when it is at index `i`: just past the
   * first stopping match from `i` on, or the whole list.
   */
  function ScanEnd(uri: string, list: seq<UserGroupMenu>, i: nat): (n: nat)
    requires i <= |list|
    ensures i <= n <= |list|
    ensures i < |list| ==> i < n
    decreases |list| - i
  {
    if i == |list| then |list|
    else if Stops(uri, list[i]) then i + 1
    else ScanEnd(uri, list, i + 1)
  }

  /** The index of the last match among the first `n` entries. */
  function LastMatch(uri: string, list: seq<UserGroupMenu>, n: nat): (r: Option<nat>)
    requires n <= |list|
    ensures r.Some? ==> r.value < n
  {
    if n == 0 then None
    else if Matches(uri, list[n - 1]) then Some(n - 1)
    else LastMatch(uri, list, n - 1)
  }

  /** Some match among the first `n` entries is faulty. */
  predicate HasFault(uri: string, list: seq<UserGroupMenu>, n: nat)
    requires n <= |list|
  {
    n > 0 && (HasFault(uri, list, n - 1) || Faulty(uri, list[n - 1]))
  }

  /** The click an entry stands for: at depth 1 the menu is its own parent. */
  function ClickOf(uri: string, m: UserGroupMenu): (c: Click)
    requires !Faulty(uri, m) && Matches(uri, m)
    ensures c.menuId == m.menuId && c.depth == m.depth
    ensures m.depth == 1 ==> c.parentId == m.menuId
    ensures m.depth != 1 ==> m.parent == Some(c.parentId)
  {
    Click(m.menuId, if m.depth == 1 then m.menuId else m.parent.value, m.depth)
  }

  /**
   * What the scan decides: a fault if a faulty match comes before the scan
   * ends, otherwise the last match before the end, or no click at all.
   */
  function Selection(uri: string, list: seq<UserGroupMenu>): Result<Option<Click>, Fault> {
    var n := ScanEnd(uri, list, 0);
    if HasFault(uri, list, n) then Err(NullPointer)
    else
      match LastMatch(uri, list, n)
      case None => Ok(None)
      case Some(i) =>
        LastMatchSpec(uri, list, n);
        NoFaultAt(uri, list, n, i);
        Ok(Some(ClickOf(uri, list[i])))
  }

  lemma {:induction false} LastMatchSpec(uri: string, list: seq<UserGroupMenu>, n: nat)
    requires n <= |list|
    ensures LastMatch(uri, list, n).Some? ==>
      var i := LastMatch(uri, list, n).value;
      i < n && Matches(uri, list[i]) && forall j :: i < j < n ==> !Matches(uri, list[j])
    ensures LastMatch(uri, list, n).None? ==> forall j :: 0 <= j < n ==> !Matches(uri, list[j])
  {
    if n > 0 && !Matches(uri, list[n - 1]) {
      LastMatchSpec(uri, list, n - 1);
    }
  }

  lemma {:induction false} NoFaultAt(uri: string, list: seq<UserGroupMenu>, n: nat, i: nat)
    requires i < n <= |list| && !HasFault(uri, list, n)
    ensures !Faulty(uri, list[i])
  {
    if i < n - 1 {
      NoFaultAt(uri, list, n - 1, i);
    }
  }

  lemma {:induction false} HasFaultSpec(uri: string, list: seq<UserGroupMenu>, n: nat)
    requires n <= |list|
    ensures HasFault(uri, list, n) <==> exists j :: 0 <= j < n && Faulty(uri, list[j])
  {
    if n > 0 {
      HasFaultSpec(uri, list, n - 1);
    }
  }

  lemma {:induction false} ScanEndSpec(uri: string, list: seq<UserGroupMenu>, i: nat)
    requires i <= |list|
    ensures forall j :: i <= j < ScanEnd(uri, list, i) - 1 ==> !Stops(uri, list[j])
    ensures ScanEnd(uri, list, i) < |list| ==> Stops(uri, list[ScanEnd(uri, list, i) - 1])
    decreases |list| - i
  {
    if i < |list| && !Stops(uri, list[i]) {
      ScanEndSpec(uri, list, i + 1);
    }
  }

  /** If no menu URL equals the URI, nothing is selected. */
  lemma NoMatchNoClick(uri: string, list: seq<UserGroupMenu>)
    requires forall j :: 0 <= j < |list| ==> !Matches(uri, list[j])
    ensures Selection(uri, list) == Ok(None)
  {
    var n := ScanEnd(uri, list, 0);
    HasFaultSpec(uri, list, n);
    LastMatchSpec(uri, list, n);
  }

  /** The first stopping match wins when no faulty match comes before it. */
  lemma FirstStopWins(uri: string, list: seq<UserGroupMenu>, k: nat)
    requires k < |list| && Stops(uri, list[k])
    requires forall j :: 0 <= j < k ==> !Stops(uri, list[j])
    requires forall j :: 0 <= j <= k ==> !Faulty(uri, list[j])
    ensures Selection(uri, list) == Ok(Some(ClickOf(uri, list[k])))
  {
    ScanEndReaches(uri, list, 0, k);
    assert ScanEnd(uri, list, 0) == k + 1;
    HasFaultSpec(uri, list, k + 1);
  }

  lemma {:induction false} ScanEndReaches(uri: string, list: seq<UserGroupMenu>, i: nat, k: nat)
    requires i <= k < |list| && Stops(uri, list[k])
    requires forall j :: i <= j < k ==> !Stops(uri, list[j])
    ensures ScanEnd(uri, list, i) == k + 1
    decreases k - i
  {
    if i < k {
      ScanEndReaches(uri, list, i + 1, k);
    }
  }

  /** With no stopping match, later matches overwrite earlier ones: the last match wins. */
  lemma LastMatchWins(uri: string, list: seq<UserGroupMenu>, k: nat)
    requires k < |list| && Matches(uri, list[k])
    requires forall j :: 0 <= j < |list| ==> !Stops(uri, list[j]) && !Faulty(uri, list[j])
    requires forall j :: k < j < |list| ==> !Matches(uri, list[j])
    ensures Selection(uri, list) == Ok(Some(ClickOf(uri, list[k])))
  {
    ScanEndNoStop(uri, list, 0);
    HasFaultSpec(uri, list, |list|);
    LastMatchSpec(uri, list, |list|);
  }

  lemma {:induction false} ScanEndNoStop(uri: string, list: seq<UserGroupMenu>, i: nat)
    requires i <= |list|
    requires forall j :: i <= j < |list| ==> !Stops(uri, list[j])
    ensures ScanEnd(uri, list, i) == |list|
    decreases |list| - i
  {
    if i < |list| {
      ScanEndNoStop(uri, list, i + 1);
    }
  }

  /** A fault is raised exactly when a faulty match is reached before the scan stops. */
  lemma FaultIffFaultyMatchReached(uri: string, list: seq<UserGroupMenu>)
    ensures Selection(uri, list).Err? <==>
      exists j :: 0 <= j < ScanEnd(uri, list, 0) && Faulty(uri, list[j])
  {
    HasFaultSpec(uri, list, ScanEnd(uri, list, 0));
  }

  /** The `for` loop with its `break`s over the user group's menu list. */
  method ScanMenus(uri: string, list: seq<UserGroupMenu>) returns (r: Result<Option<Click>, Fault>)
    ensures r == Selection(uri, list)
  {
    var click: Option<Click> := None;
    var i := 0;
    while i < |list|
      invariant 0 <= i <= |list|
      invariant ScanEnd(uri, list, i) == ScanEnd(uri, list, 0)
      invariant !HasFault(uri, list, i)
      invariant LastMatch(uri, list, i).None? ==> click.None?
      invariant LastMatch(uri, list, i).Some? ==>
        !Faulty(uri, list[LastMatch(uri, list, i).value]) &&
        Matches(uri, list[LastMatch(uri, list, i).value]) &&
        click == Some(ClickOf(uri, list[LastMatch(uri, list, i).value]))
    {
      var m := list[i];
      if m.url == Some(uri) {
        var parentId;
        if m.depth == 1 {
          parentId := m.menuId;
        } else {
          if m.parent.None? {
            HasFaultAfter(uri, list, i + 1, ScanEnd(uri, list, 0));
            return Err(NullPointer);
          }
          parentId := m.parent.value;
        }
        click := Some(Click(m.menuId, parentId, m.depth));
        if m.depth == 1 && IndexOf(uri, "/main/index") >= 0 {
          break;
        } else if m.depth == 2 {
          break;
        }
      }
      i := i + 1;
    }
    if i < |list| {
      // left by a break: the scan ends just past entry i
      assert ScanEnd(uri, list, 0) == i + 1;
      assert LastMatch(uri, list, i + 1) == Some(i);
    }
    r := Ok(click);
  }

  lemma {:induction false} HasFaultAfter(uri: string, list: seq<UserGroupMenu>, n: nat, m: nat)
    requires n <= m <= |list| && HasFault(uri, list, n)
    ensures HasFault(uri, list, m)
    decreases m - n
  {
    if n < m {
      HasFaultAfter(uri, list, n, m - 1);
    }
  }

  // ------------------------------------------------------------ the aliases

  function MenuAt(menus: map<int, Menu>, id: int): (r: Option<Menu>)
    ensures r.Some? <==> id in menus
    ensures r.Some? ==> r.value == menus[id]
  {
    if id in menus then Some(menus[id]) else None
  }

  /**
   * The alias name both menus receive: null when the menu is displayed
   * (`displayYn` Y); otherwise the name of the menu registered under the
   * menu's URL alias. A `displayYn` other than Y or N makes `YOrN.valueOf`
   * throw; a missing alias entry leaves `aliasMenu` null.
   */
  function AliasFor(menu: Menu, menus: map<int, Menu>, menuUrls: map<string, int>): (r: Result<Option<string>, Fault>)
    ensures menu.displayYn == "Y" ==> r == Ok(None)
    ensures menu.displayYn != "Y" && menu.displayYn != "N" ==> r == Err(IllegalArgument)
    ensures r.Ok? && menu.displayYn != "Y" ==>
      menu.urlAlias.Some? && menu.urlAlias.value in menuUrls && menuUrls[menu.urlAlias.value] in menus &&
      r.value == Some(menus[menuUrls[menu.urlAlias.value]].name)
    ensures r.Err? ==> r.error == IllegalArgument || r.error == NullPointer
  {
    if menu.displayYn == "Y" then Ok(None)
    else if menu.displayYn != "N" then Err(IllegalArgument)
    else if menu.urlAlias.Some? && menu.urlAlias.value in menuUrls && menuUrls[menu.urlAlias.value] in menus then
      Ok(Some(menus[menuUrls[menu.urlAlias.value]].name))
    else Err(NullPointer)
  }

  /**
   * When `preHandle` gets past the menu list: the scan finds no parentless
   * match, and a clicked menu that is cached has a resolvable alias and a
   * cached parent.
   */
  predicate Admitted(uri: string, list: seq<UserGroupMenu>, menus: map<int, Menu>, menuUrls: map<string, int>) {
    var sel := Selection(uri, list);
    sel.Ok? &&
    (sel.value.Some? && sel.value.value.menuId in menus ==>
       AliasFor(menus[sel.value.value.menuId], menus, menuUrls).Ok? && sel.value.value.parentId in menus)
  }

  /** The request attributes `preHandle` sets. */
  datatype Attributes = Attributes(
    clickMenuId: Option<int>,
    menu: Option<Menu>,
    parentMenu: Option<Menu>,
    userGroupMenuList: seq<UserGroupMenu>,
    userGroupMenuListSize: int,
    contentCacheVersion: int)

  /** `preHandle`'s answer: whether the request proceeds, and what it put on the request. */
  datatype Handled = Handled(proceed: bool, attributes: Attributes)

  /**
   * `preHandle`. The caches are parameters: `groupMenus` maps a user group to
   * its menu list, `menus` maps menu ids to the cached menus, `menuUrls` maps
   * URLs to menu ids. A user group without a list counts as a null list.
   */
  method PreHandle(uri: string, session: Option<UserSession>, groupMenus: map<int, seq<UserGroupMenu>>,
                   menus: map<int, Menu>, menuUrls: map<string, int>, contentCacheVersion: int)
    returns (r: Result<Handled, Fault>)
    modifies menus.Values
    ensures UserGroupIdOf(session) !in groupMenus ==> r == Err(NullPointer)
    ensures r.Ok? <==>
      UserGroupIdOf(session) in groupMenus && Admitted(uri, groupMenus[UserGroupIdOf(session)], menus, menuUrls)
    // Each refusal carries the fault of the step that failed.
    ensures r.Err? && UserGroupIdOf(session) in groupMenus ==>
      var sel := Selection(uri, groupMenus[UserGroupIdOf(session)]);
      if sel.Err? then r.error == sel.error
      else
        sel.value.Some? && sel.value.value.menuId in menus &&
        var alias := AliasFor(menus[sel.value.value.menuId], menus, menuUrls);
        if alias.Err? then r.error == alias.error
        else sel.value.value.parentId !in menus && r.error == NullPointer
    ensures r.Ok? ==> r.value.proceed
    ensures r.Ok? ==>
      var list := groupMenus[UserGroupIdOf(session)];
      var a := r.value.attributes;
      Selection(uri, list).Ok? &&
      a.userGroupMenuList == list && a.userGroupMenuListSize == |list| &&
      a.contentCacheVersion == contentCacheVersion &&
      match Selection(uri, list).value
      case None => a.clickMenuId.None? && a.menu.None? && a.parentMenu.None?
      case Some(c) =>
        a.clickMenuId == Some(c.menuId) && a.menu == MenuAt(menus, c.menuId) &&
        a.parentMenu == MenuAt(menus, c.parentId)
    // Only the selected menu and its parent change, and both get the alias.
    ensures forall m :: m in menus.Values && m.aliasName != old(m.aliasName) ==>
      UserGroupIdOf(session) in groupMenus &&
      var sel := Selection(uri, groupMenus[UserGroupIdOf(session)]);
      sel.Ok? && sel.value.Some? && sel.value.value.menuId in menus &&
      var menu := menus[sel.value.value.menuId];
      AliasFor(menu, menus, menuUrls).Ok? && m.aliasName == AliasFor(menu, menus, menuUrls).value &&
      (m == menu || MenuAt(menus, sel.value.value.parentId) == Some(m))
    ensures r.Ok? ==>
      var sel := Selection(uri, groupMenus[UserGroupIdOf(session)]);
      sel.value.Some? && sel.value.value.menuId in menus ==>
        var menu := menus[sel.value.value.menuId];
        AliasFor(menu, menus, menuUrls).Ok? && sel.value.value.parentId in menus &&
        menu.aliasName == AliasFor(menu, menus, menuUrls).value &&
        menus[sel.value.value.parentId].aliasName == AliasFor(menu, menus, menuUrls).value
    // An error leaves every alias as it was, except the one case where the
    // menu's alias is set before its missing parent is dereferenced.
    ensures r.Err? ==>
      (forall m :: m in menus.Values ==> m.aliasName == old(m.aliasName)) ||
      (var sel := Selection(uri, groupMenus[UserGroupIdOf(session)]);
       sel.Ok? && sel.value.Some? && sel.value.value.menuId in menus &&
       sel.value.value.parentId !in menus && r.error == NullPointer)
  {
    var groupId := UserGroupIdOf(session);
    if groupId !in groupMenus {
      return Err(NullPointer);
    }
    var list := groupMenus[groupId];
    var scan := ScanMenus(uri, list);
    if scan.Err? {
      return Err(scan.error);
    }
    var clickMenuId: Option<int> := None;
    var menu: Option<Menu> := None;
    var parentMenu: Option<Menu> := None;
    if scan.value.Some? {
      var c := scan.value.value;
      clickMenuId := Some(c.menuId);
      menu := MenuAt(menus, c.menuId);
      parentMenu := MenuAt(menus, c.parentId);
    }
    if menu.Some? {
      var alias := AliasFor(menu.value, menus, menuUrls);
      if alias.Err? {
        return Err(alias.error);
      }
      menu.value.aliasName := alias.value;
      if parentMenu.None? {
        return Err(NullPointer);
      }
      parentMenu.value.aliasName := alias.value;
    }
    var attributes := Attributes(clickMenuId, menu, parentMenu, list, |list|, contentCacheVersion);
    return Ok(Handled(true, attributes));
  }
}
